/** The opentracing TextMap carrier over a NATS header (adapter/tracing_adapter.go).
    A Go map has no iteration order: each loop over the header's keys takes
    them in an order it chooses, and the contracts hold for any such order. */
module TracingAdapter {
  import opened Wrappers
  import opened Errors
  import opened Bytes

  /** The header key under which jaeger writes its span context. */
  const TraceContextHeaderName: string := "uber-trace-id"

  /** A `nats.Header`: each key maps to a list of values. */
  class Header {
    var entries: map<string, seq<string>>

    constructor (entries: map<string, seq<string>>)
      ensures this.entries == entries
    {
      this.entries := entries;
    }
  }

  /** The (key, value) pairs of one key, in the order of its value list. */
  function Pairs(k: string, vs: seq<string>): (r: seq<(string, string)>)
    ensures |r| == |vs|
    ensures forall i :: 0 <= i < |vs| ==> r[i] == (k, vs[i])
  {
    seq(|vs|, i requires 0 <= i < |vs| => (k, vs[i]))
  }

  /** The pairs of the keys in `order`, key after key. */
  function Visits(order: seq<string>, m: map<string, seq<string>>): seq<(string, string)>
    requires forall k :: k in order ==> k in m
    decreases |order|
  {
    if order == [] then []
    else Visits(order[..|order| - 1], m) + Pairs(order[|order| - 1], m[order[|order| - 1]])
  }

  /** The handler's answer for one visited pair. */
  function Apply(handler: (string, string) -> Option<Error>, p: (string, string)): Option<Error>
  {
    handler(p.0, p.1)
  }

  /** The handler accepts every pair in ps. */
  predicate AllAccepted(handler: (string, string) -> Option<Error>, ps: seq<(string, string)>)
  {
    forall i :: 0 <= i < |ps| ==> Apply(handler, ps[i]).None?
  }

  lemma AcceptedAppend(handler: (string, string) -> Option<Error>, ps: seq<(string, string)>, qs: seq<(string, string)>)
    requires AllAccepted(handler, ps) && AllAccepted(handler, qs)
    ensures AllAccepted(handler, ps + qs)
  {
    assert forall i :: |ps| <= i < |ps + qs| ==> (ps + qs)[i] == qs[i - |ps|];
  }

  lemma AppendPrefix(ps: seq<(string, string)>, qs: seq<(string, string)>, rs: seq<(string, string)>)
    requires qs <= rs
    ensures ps + qs <= ps + rs
  {
    assert (ps + rs)[..|ps + qs|] == ps + rs[..|qs|];
  }

  /** A pair the handler rejects, met on the way, means not every pair is accepted. */
  lemma StoppedEarly(handler: (string, string) -> Option<Error>, visits: seq<(string, string)>, all: seq<(string, string)>)
    requires visits <= all && |visits| > 0
    requires Apply(handler, visits[|visits| - 1]).Some?
    ensures !AllAccepted(handler, all)
  {
    assert all[|visits| - 1] == visits[|visits| - 1];
  }

  /** The inner loop of `ForeachKey`: the values of one key in list order, up to
      and including the first one the handler rejects. */
  method VisitValues(k: string, ll: seq<string>, handler: (string, string) -> Option<Error>)
    returns (err: Option<Error>, pairs: seq<(string, string)>)
    ensures pairs <= Pairs(k, ll)
    ensures err.None? ==> pairs == Pairs(k, ll) && AllAccepted(handler, pairs)
    ensures err.Some? ==>
      && |pairs| > 0
      && AllAccepted(handler, pairs[..|pairs| - 1])
      && Apply(handler, pairs[|pairs| - 1]) == err
  {
    pairs := [];
    var j := 0;
    while j < |ll|
      invariant 0 <= j <= |ll|
      invariant pairs == Pairs(k, ll[..j])
      invariant AllAccepted(handler, pairs)
    {
      assert Pairs(k, ll[..j + 1]) == pairs + [(k, ll[j])];
      var e := handler(k, ll[j]);
      if e.Some? {
        assert Pairs(k, ll)[..j + 1] == Pairs(k, ll[..j + 1]);
        return e, pairs + [(k, ll[j])];
      }
      pairs := pairs + [(k, ll[j])];
      j := j + 1;
    }
    assert ll[..j] == ll;
    return None, pairs;
  }

  /** An order in which a loop over the map may take its keys: each key once. */
  predicate IsKeyOrder(order: seq<string>, m: map<string, seq<string>>)
  {
    && (forall k :: k in order ==> k in m)
    && (forall k :: k in m ==> k in order)
    && (forall i, j :: 0 <= i < j < |order| ==> order[i] != order[j])
  }

  /** Whatever the order of the keys, the loop visits exactly the values stored
      under the keys it takes. */
  lemma {:induction false} VisitsCover(order: seq<string>, m: map<string, seq<string>>, k: string, v: string)
    requires forall k' :: k' in order ==> k' in m
    ensures (k, v) in Visits(order, m) <==> k in order && v in m[k]
    decreases |order|
  {
    if order != [] {
      var init, last := order[..|order| - 1], order[|order| - 1];
      assert forall k' :: k' in order <==> k' in init || k' == last;
      VisitsCover(init, m, k, v);
      var p := Pairs(last, m[last]);
      if k == last && v in m[k] {
        var i :| 0 <= i < |m[k]| && m[k][i] == v;
        assert p[i] == (k, v);
      }
    }
  }

  /** When the loop takes each key once, it visits every stored (key, value)
      pair exactly as often as the value occurs in that key's list. */
  lemma {:induction false} VisitsCount(order: seq<string>, m: map<string, seq<string>>, k: string, v: string)
    requires forall k' :: k' in order ==> k' in m
    requires forall i, j :: 0 <= i < j < |order| ==> order[i] != order[j]
    ensures multiset(Visits(order, m))[(k, v)] == if k in order then multiset(m[k])[v] else 0
    decreases |order|
  {
    if order != [] {
      var init, last := order[..|order| - 1], order[|order| - 1];
      assert forall k' :: k' in order <==> k' in init || k' == last;
      assert forall i :: 0 <= i < |init| ==> init[i] == order[i] != last;
      VisitsCount(init, m, k, v);
      PairsCount(last, m[last], k, v);
    }
  }

  lemma {:induction false} PairsCount(k: string, vs: seq<string>, k': string, v: string)
    ensures multiset(Pairs(k, vs))[(k', v)] == if k' == k then multiset(vs)[v] else 0
    decreases |vs|
  {
    if vs != [] {
      var init := vs[..|vs| - 1];
      PairsCount(k, init, k', v);
      assert Pairs(k, vs) == Pairs(k, init) + [(k, vs[|vs| - 1])];
      assert vs == init + [vs[|vs| - 1]];
    }
  }

  /** Visiting more keys only extends the pairs visited so far. */
  lemma {:induction false} VisitsPrefix(order: seq<string>, more: seq<string>, m: map<string, seq<string>>)
    requires forall k :: k in order + more ==> k in m
    ensures Visits(order, m) <= Visits(order + more, m)
    decreases |more|
  {
    if more != [] {
      var init, full := more[..|more| - 1], order + more;
      assert full[..|full| - 1] == order + init;
      VisitsPrefix(order, init, m);
      var a, b := Visits(order, m), Visits(order + init, m);
      var c := Pairs(full[|full| - 1], m[full[|full| - 1]]);
      assert Visits(full, m) == b + c;
      assert (b + c)[..|a|] == b[..|a|] == a;
    } else {
      assert order + more == order;
    }
  }

  /** The order in which `range` takes the keys of m: each key once. */
  method KeyOrder(m: map<string, seq<string>>) returns (keys: seq<string>)
    ensures IsKeyOrder(keys, m)
  {
    var rest := m.Keys;
    keys := [];
    while rest != {}
      invariant Taken(keys, rest, m)
      decreases |rest|
    {
      var k :| k in rest;
      TakeOne(keys, rest, m, k);
      keys := keys + [k];
      rest := rest - {k};
    }
  }

  /** The nested loops of `ForeachKey` over the header's map, taking the keys
      in the order `keys`. */
  method VisitAll(m: map<string, seq<string>>, handler: (string, string) -> Option<Error>)
    returns (err: Option<Error>, visits: seq<(string, string)>, keys: seq<string>)
    ensures IsKeyOrder(keys, m)
    ensures visits <= Visits(keys, m)
    ensures err.None? ==> visits == Visits(keys, m) && AllAccepted(handler, visits)
    ensures err.Some? ==>
      && |visits| > 0
      && AllAccepted(handler, visits[..|visits| - 1])
      && Apply(handler, visits[|visits| - 1]) == err
    ensures err.None? <==> AllAccepted(handler, Visits(keys, m))
  {
    keys := KeyOrder(m);
    visits := [];
    var i := 0;
    while i < |keys|
      invariant 0 <= i <= |keys|
      invariant visits == Visits(keys[..i], m)
      invariant AllAccepted(handler, visits)
    {
      var e, pairs := VisitValues(keys[i], m[keys[i]], handler);
      VisitsStep(keys, i, m);
      if e.Some? {
        StopAt(handler, visits, pairs, keys, i, m);
        return e, visits + pairs, keys;
      }
      AcceptedAppend(handler, visits, pairs);
      visits := visits + pairs;
      i := i + 1;
    }
    assert keys[..i] == keys;
    err := None;
  }

  class KHeader {
    const h: Header

    /** `NewHeader`: the carrier writes through to the header it was given. */
    constructor (h: Header)
      ensures this.h == h
    {
      this.h := h;
    }

    /** `Set`: the key now holds the one value; an earlier list under it is
        replaced and every other key is kept. */
    method Set(key: string, val: string)
      modifies h
      ensures h.entries == old(h.entries)[key := [val]]
    {
      h.entries := h.entries[key := [val]];
    }

    /** `ForeachKey`: the handler is called on every (key, value) pair, the values
        of a key in list order, until it returns an error; that error is the result.
        `order` is the key order the loop took, `visits` the handler's arguments.
        The header is only read. */
    method ForeachKey(handler: (string, string) -> Option<Error>)
      returns (err: Option<Error>, visits: seq<(string, string)>, order: seq<string>)
      ensures IsKeyOrder(order, h.entries)
      ensures visits <= Visits(order, h.entries)
      ensures err.None? ==> visits == Visits(order, h.entries) && AllAccepted(handler, visits)
      ensures err.Some? ==>
        && |visits| > 0
        && AllAccepted(handler, visits[..|visits| - 1])
        && Apply(handler, visits[|visits| - 1]) == err
      ensures err.None? <==> AllAccepted(handler, Visits(order, h.entries))
    {
      err, visits, order := VisitAll(h.entries, handler);
    }

    /** `GetTraceValue`: the bytes of the first value under the jaeger key, or nil
        when the key is absent. Indexing an empty list under that key panics in
        Go, so callers must not store one. */
    method GetTraceValue() returns (r: Option<seq<byte>>)
      requires TraceContextHeaderName in h.entries ==> |h.entries[TraceContextHeaderName]| > 0
      ensures r.Some? <==> TraceContextHeaderName in h.entries
      ensures r.Some? ==> r.value == Utf8(h.entries[TraceContextHeaderName][0])
    {
      var rest := h.entries.Keys;
      while rest != {}
        invariant rest <= h.entries.Keys
        invariant TraceContextHeaderName in h.entries ==> TraceContextHeaderName in rest
        decreases |rest|
      {
        var key :| key in rest;
        if key != TraceContextHeaderName {
          rest := rest - {key};
          continue;
        }
        return Some(Utf8(h.entries[key][0]));
      }
      return None;
    }

    /** What the tracer injects through Set is what GetTraceValue reads back, and
        a key already in the header keeps its values. */
    method SetThenGetTraceValue(val: string, other: string) returns (r: Option<seq<byte>>)
      requires other != TraceContextHeaderName
      modifies h
      ensures r == Some(Utf8(val))
      ensures other in old(h.entries) ==> other in h.entries && h.entries[other] == old(h.entries)[other]
    {
      Set(TraceContextHeaderName, val);
      r := GetTraceValue();
    }
  }

  /** Part way through a loop over the keys of m: `order` holds the keys taken,
      each once, and `rest` those still to come. */
  predicate Taken(order: seq<string>, rest: set<string>, m: map<string, seq<string>>)
  {
    && rest <= m.Keys
    && (forall k :: k in order ==> k in m && k !in rest)
    && (forall k :: k in m ==> k in order || k in rest)
    && (forall i, j :: 0 <= i < j < |order| ==> order[i] != order[j])
  }

  lemma TakeOne(order: seq<string>, rest: set<string>, m: map<string, seq<string>>, k: string)
    requires Taken(order, rest, m) && k in rest
    ensures Taken(order + [k], rest - {k}, m)
  {
  }

  /** One more key: its pairs follow those of the keys before it. */
  lemma VisitsStep(keys: seq<string>, i: nat, m: map<string, seq<string>>)
    requires IsKeyOrder(keys, m) && i < |keys|
    ensures Visits(keys[..i + 1], m) == Visits(keys[..i], m) + Pairs(keys[i], m[keys[i]])
  {
    assert keys[..i + 1][..i] == keys[..i];
  }

  /** The loop stops inside the values of keys[i]: what it visited is a prefix of
      the pairs of the whole key order, every visit but the last was accepted,
      and not every pair of that order is accepted. */
  lemma StopAt(handler: (string, string) -> Option<Error>, visits: seq<(string, string)>,
               pairs: seq<(string, string)>, keys: seq<string>, i: nat, m: map<string, seq<string>>)
    requires IsKeyOrder(keys, m) && i < |keys|
    requires visits == Visits(keys[..i], m) && AllAccepted(handler, visits)
    requires pairs <= Pairs(keys[i], m[keys[i]]) && |pairs| > 0
    requires AllAccepted(handler, pairs[..|pairs| - 1])
    requires Apply(handler, pairs[|pairs| - 1]).Some?
    ensures visits + pairs <= Visits(keys, m)
    ensures AllAccepted(handler, (visits + pairs)[..|visits + pairs| - 1])
    ensures (visits + pairs)[|visits + pairs| - 1] == pairs[|pairs| - 1]
    ensures !AllAccepted(handler, Visits(keys, m))
  {
    assert (visits + pairs)[..|visits + pairs| - 1] == visits + pairs[..|pairs| - 1];
    AcceptedAppend(handler, visits, pairs[..|pairs| - 1]);
    VisitsStep(keys, i, m);
    AppendPrefix(visits, pairs, Pairs(keys[i], m[keys[i]]));
    assert keys[..i + 1] + keys[i + 1..] == keys;
    VisitsPrefix(keys[..i + 1], keys[i + 1..], m);
    PrefixTrans(visits + pairs, Visits(keys[..i + 1], m), Visits(keys, m));
    StoppedEarly(handler, visits + pairs, Visits(keys, m));
  }

  lemma PrefixTrans(a: seq<(string, string)>, b: seq<(string, string)>, c: seq<(string, string)>)
    requires a <= b && b <= c
    ensures a <= c
  {
    assert c[..|a|] == b[..|a|];
  }
}
