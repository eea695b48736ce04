/** The hello service: a visit counter per name behind four RPCs (SayHi,
    Health, Counts, DeleteCounts). Each call is modelled as atomic; the
    reader/writer lock that makes it so is not part of this model. */
module Hello {
  import opened Status

  /** Go's `uint64`: the stored counts wrap around to 0 after the maximum. */
  newtype uint64 = x: int | 0 <= x < 0x1_0000_0000_0000_0000
  const Modulus: int := 0x1_0000_0000_0000_0000
  const MaxCount: uint64 := 0xFFFF_FFFF_FFFF_FFFF

  const DefaultName := "strange"
  const HealthMessage := "nothing to see here"
  const NoVisitsMessage := "there is no visits recorded at this moment"

  datatype SayHiResponse = SayHiResponse(greeting: string)
  datatype HealthResponse = HealthResponse
  datatype Count = Count(name: string, count: uint64)
  datatype CountsResponse = CountsResponse(counts: seq<Count>)
  datatype Empty = Empty

  /** The SayHi request message, passed by pointer and rewritten by SayHi. */
  class SayHiRequest {
    var name: string

    constructor (name: string)
      ensures this.name == name
    {
      this.name := name;
    }
  }

  /** The counter store: the map from name to visit count. */
  class Counter {
    var m: map<string, uint64>

    constructor ()
      ensures m == map[]
    {
      m := map[];
    }
  }

  /** The name SayHi greets and counts: the request's name, or the default
      when the request leaves it empty. */
  function EffectiveName(name: string): (e: string)
    ensures e != ""
    ensures e == name <==> name != ""
    ensures name == "" ==> e == DefaultName
  {
    if name == "" then DefaultName else name
  }

  /** The count stored for a name, reading an absent name as 0 like a Go map. */
  function CountOf(m: map<string, uint64>, name: string): (c: uint64)
    ensures name !in m ==> c == 0
    ensures name in m ==> c == m[name]
  {
    if name in m then m[name] else 0
  }

  // ---------------------------------------------------------------------
  // Listing a map as a sequence of entries

  /** No two entries share a name. */
  ghost predicate DistinctNames(e: seq<Count>)
  {
    forall i, j :: 0 <= i < j < |e| ==> e[i].name != e[j].name
  }

  /** The map an entry sequence describes (a later entry wins on a name). */
  ghost function ToMap(e: seq<Count>): map<string, uint64>
  {
    if e == [] then map[] else ToMap(e[..|e| - 1])[e[|e| - 1].name := e[|e| - 1].count]
  }

  /** `e` lists exactly the entries of `m`, one entry per key, in any order. */
  ghost predicate Lists(e: seq<Count>, m: map<string, uint64>)
  {
    DistinctNames(e) && ToMap(e) == m
  }

  /** The keys of `ToMap(e)` are the names occurring in `e`. */
  lemma {:induction false} ToMapKeys(e: seq<Count>)
    ensures forall k :: k in ToMap(e) <==> exists i :: 0 <= i < |e| && e[i].name == k
  {
    if e != [] {
      var p := e[..|e| - 1];
      ToMapKeys(p);
      forall k | k in ToMap(e)
        ensures exists i :: 0 <= i < |e| && e[i].name == k
      {
        if k != e[|e| - 1].name {
          assert k in ToMap(p);
          var i :| 0 <= i < |p| && p[i].name == k;
          assert e[i].name == k;
        }
      }
      forall k, i | 0 <= i < |e| && e[i].name == k
        ensures k in ToMap(e)
      {
        if i < |p| {
          assert p[i].name == k;
        }
      }
    }
  }

  /** With distinct names, every entry is recorded in `ToMap`. */
  lemma {:induction false} ToMapAt(e: seq<Count>, i: int)
    requires DistinctNames(e)
    requires 0 <= i < |e|
    ensures e[i].name in ToMap(e) && ToMap(e)[e[i].name] == e[i].count
  {
    if i < |e| - 1 {
      var p := e[..|e| - 1];
      assert p[i] == e[i];
      assert e[i].name != e[|e| - 1].name;
      ToMapAt(p, i);
    }
  }

  /** With distinct names, `ToMap` has one key per entry. */
  lemma {:induction false} ToMapSize(e: seq<Count>)
    requires DistinctNames(e)
    ensures |ToMap(e)| == |e|
  {
    if e != [] {
      var p := e[..|e| - 1];
      var x := e[|e| - 1];
      ToMapSize(p);
      ToMapKeys(p);
      forall i | 0 <= i < |p|
        ensures p[i].name != x.name
      {
        assert p[i] == e[i];
      }
      assert x.name !in ToMap(p);
    }
  }

  /** A sequence with distinct names holds each of its elements once. */
  lemma {:induction false} DistinctMultiplicity(e: seq<Count>, x: Count)
    requires DistinctNames(e)
    ensures multiset(e)[x] == if x in e then 1 else 0
  {
    if e != [] {
      var p := e[..|e| - 1];
      var y := e[|e| - 1];
      assert e == p + [y];
      DistinctMultiplicity(p, x);
      forall i | 0 <= i < |p|
        ensures p[i] != y
      {
        assert p[i] == e[i];
      }
      assert y !in p;
    }
  }

  /** What a listing says about the map, as the service's tests check it:
      as many entries as keys, each entry's count is the stored count, and
      every key has its entry. */
  lemma ListsFacts(e: seq<Count>, m: map<string, uint64>)
    requires Lists(e, m)
    ensures |e| == |m|
    ensures forall i :: 0 <= i < |e| ==> e[i].name in m && e[i].count == m[e[i].name]
    ensures forall k :: k in m ==> Count(k, m[k]) in e
  {
    ToMapSize(e);
    forall i | 0 <= i < |e|
      ensures e[i].name in m && e[i].count == m[e[i].name]
    {
      ToMapAt(e, i);
    }
    ToMapKeys(e);
    forall k | k in m
      ensures Count(k, m[k]) in e
    {
      var i :| 0 <= i < |e| && e[i].name == k;
      ToMapAt(e, i);
      assert e[i] == Count(k, m[k]);
    }
  }

  /** Order is the only freedom: two listings of one map are permutations of
      each other. */
  lemma ListingsArePermutations(e1: seq<Count>, e2: seq<Count>, m: map<string, uint64>)
    requires Lists(e1, m) && Lists(e2, m)
    ensures |e1| == |e2|
    ensures multiset(e1) == multiset(e2)
  {
    ListsFacts(e1, m);
    ListsFacts(e2, m);
    forall x
      ensures multiset(e1)[x] == multiset(e2)[x]
    {
      DistinctMultiplicity(e1, x);
      DistinctMultiplicity(e2, x);
      if x in e1 {
        var i :| 0 <= i < |e1| && e1[i] == x;
        assert Count(x.name, m[x.name]) in e2;
      }
      if x in e2 {
        var i :| 0 <= i < |e2| && e2[i] == x;
        assert Count(x.name, m[x.name]) in e1;
      }
    }
  }

  // ---------------------------------------------------------------------
  // The service

  /** The gRPC service; it owns one counter store. */
  class Service {
    var counter: Counter

    /** The service as registered: a fresh, empty counter store. */
    constructor ()
      ensures fresh(counter) && counter.m == map[]
    {
      counter := new Counter();
    }

    /** Greets the request's name (after defaulting an empty one, which is
        written back into the request) and counts one more visit for it. */
    method SayHi(r: SayHiRequest) returns (res: Result<SayHiResponse>)
      modifies r, counter
      ensures r.name == EffectiveName(old(r.name))
      ensures counter == old(counter)
      ensures counter.m.Keys == old(counter.m).Keys + {r.name}
      ensures counter.m[r.name] as int == (CountOf(old(counter.m), r.name) as int + 1) % Modulus
      ensures CountOf(old(counter.m), r.name) < MaxCount ==> counter.m[r.name] == CountOf(old(counter.m), r.name) + 1
      ensures forall k :: k in old(counter.m) && k != r.name ==> counter.m[k] == old(counter.m)[k]
      ensures res == Ok(SayHiResponse("Hello, " + r.name + "!"))
    {
      if r.name == "" {
        r.name := DefaultName;
      }
      var name := r.name;
      var c := CountOf(counter.m, name);
      counter.m := counter.m[name := if c == MaxCount then 0 else c + 1];
      res := Ok(SayHiResponse("Hello, " + r.name + "!"));
    }

    /** The health RPC is a placeholder that always fails. */
    method Health() returns (res: Result<HealthResponse>)
      ensures res == Err(Unimplemented, HealthMessage)
    {
      res := Err(Unimplemented, HealthMessage);
    }

    /** Reports every name with its count, or NotFound when nothing has been
        counted yet. */
    method Counts() returns (res: Result<CountsResponse>)
      ensures counter.m == map[] <==> res.Err?
      ensures res.Err? ==> res == Err(NotFound, NoVisitsMessage)
      ensures res.Ok? ==> Lists(res.value.counts, counter.m)
      ensures res.Ok? ==> |res.value.counts| == |counter.m|
      ensures res.Ok? ==> forall i :: 0 <= i < |res.value.counts| ==>
                res.value.counts[i].name in counter.m && res.value.counts[i].count == counter.m[res.value.counts[i].name]
      ensures res.Ok? ==> forall k :: k in counter.m ==> Count(k, counter.m[k]) in res.value.counts
    {
      var m := counter.m;
      if |m| == 0 {
        return Err(NotFound, NoVisitsMessage);
      }
      var counts: seq<Count> := [];
      var rest := m.Keys;
      while rest != {}
        invariant rest <= m.Keys
        invariant DistinctNames(counts)
        invariant ToMap(counts) == m - rest
        invariant forall i :: 0 <= i < |counts| ==> counts[i].name !in rest
        decreases rest
      {
        var k :| k in rest;
        assert (counts + [Count(k, m[k])])[..|counts|] == counts;
        counts := counts + [Count(k, m[k])];
        rest := rest - {k};
      }
      res := Ok(CountsResponse(counts));
      ListsFacts(counts, m);
    }

    /** Drops every count by swapping in a fresh, empty counter store. */
    method DeleteCounts() returns (res: Result<Empty>)
      modifies this
      ensures fresh(counter) && counter.m == map[]
      ensures res == Ok(Empty)
    {
      counter := new Counter();
      res := Ok(Empty);
    }
  }

  // ---------------------------------------------------------------------
  // Clients: what a caller of the service can conclude from the contracts

  /** A following Counts fails with NotFound, whatever the store held. */
  method DeleteThenCounts(s: Service) returns (res: Result<CountsResponse>)
    modifies s
    ensures res == Err(NotFound, NoVisitsMessage)
  {
    var _ := s.DeleteCounts();
    res := s.Counts();
  }

  /** The greeting table of the service's tests run on a fresh service: an
      empty name is greeted and counted as "strange", a repeated name counts
      up; the counts that follow are exactly those two entries. */
  method SayHiSequence() returns (greetings: seq<string>, counts: seq<uint64>, listed: Result<CountsResponse>)
    ensures greetings == ["Hello, strange!", "Hello, camilo!", "Hello, camilo!"]
    ensures counts == [1, 1, 2]
    ensures listed.Ok? && |listed.value.counts| == 2
    ensures multiset(listed.value.counts) == multiset{Count("strange", 1), Count("camilo", 2)}
  {
    var s := new Service();
    var r1 := new SayHiRequest("");
    var g1 := s.SayHi(r1);
    assert r1.name == "strange" && s.counter.m == map["strange" := 1];
    var c1 := s.counter.m[r1.name];
    var r2 := new SayHiRequest("camilo");
    var g2 := s.SayHi(r2);
    assert r2.name == "camilo" && s.counter.m == map["strange" := 1, "camilo" := 1];
    var c2 := s.counter.m[r2.name];
    var r3 := new SayHiRequest("camilo");
    var g3 := s.SayHi(r3);
    assert r3.name == "camilo" && s.counter.m == map["strange" := 1, "camilo" := 2];
    var c3 := s.counter.m[r3.name];
    assert "Hello, " + "strange" + "!" == "Hello, strange!";
    assert "Hello, " + "camilo" + "!" == "Hello, camilo!";
    greetings := [g1.value.greeting, g2.value.greeting, g3.value.greeting];
    counts := [c1, c2, c3];
    listed := s.Counts();
    TwoKeyListing(listed.value.counts, "strange", 1, "camilo", 2);
  }

  /** A listing of a store with two names holds exactly those two entries. */
  lemma TwoKeyListing(e: seq<Count>, a: string, ca: uint64, b: string, cb: uint64)
    requires a != b
    requires Lists(e, map[a := ca, b := cb])
    ensures |e| == 2 && multiset(e) == multiset{Count(a, ca), Count(b, cb)}
  {
    var expected := [Count(a, ca), Count(b, cb)];
    assert ToMap(expected) == map[a := ca, b := cb] by {
      assert expected[..1] == [Count(a, ca)];
      assert [Count(a, ca)][..0] == [];
      assert ToMap([Count(a, ca)]) == map[a := ca];
    }
    ListingsArePermutations(e, expected, map[a := ca, b := cb]);
  }

  /** The counts table of the service's tests: an empty store fails with
      NotFound; a store of two names lists exactly those two counts. */
  method CountsSequence() returns (empty: Result<CountsResponse>, filled: Result<CountsResponse>)
    ensures empty == Err(NotFound, NoVisitsMessage)
    ensures filled.Ok? && |filled.value.counts| == 2
    ensures forall c :: c in filled.value.counts ==> c == Count("alice", 3) || c == Count("camilo", 2)
    ensures multiset(filled.value.counts) == multiset{Count("alice", 3), Count("camilo", 2)}
  {
    var s := new Service();
    empty := s.Counts();
    s.counter.m := map["alice" := 3, "camilo" := 2];
    assert "alice" in s.counter.m;
    filled := s.Counts();
    TwoKeyListing(filled.value.counts, "alice", 3, "camilo", 2);
  }
}
