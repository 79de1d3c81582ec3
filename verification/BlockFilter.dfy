/** Compact block filters: Golomb-coded sets of scripts and the matcher that walks them. */
module BlockFilter {
  import opened Bytes
  import opened Powers
  import opened Sorting
  import opened Transactions
  import opened BitCodec

  const GOLOMB_P: nat := 19

  type Word = x: nat | x < U64

  /** A keyed 64-bit hash of byte strings. */
  type Hasher = Script -> Word

  function FastRange(hash: nat, n: nat): nat
  {
    hash * n / U64
  }

  lemma {:induction false} FastRangeBelow(hash: nat, n: nat)
    requires hash < U64 && n > 0
    ensures FastRange(hash, n) < n
  {
    Below(hash, n, U64);
  }

  lemma {:induction false} Below(a: nat, n: nat, p: nat)
    requires a < p && n > 0
    ensures a * n / p < n
  {
    assert a * n < n * p;
    DivMod(a * n, p);
    if a * n / p >= n {
      MulMono(n, a * n / p, p);
    }
  }

  /** The number of values an element of a filter of `n` elements can take. */
  function Range(n: nat): nat
  {
    n * 0x8_0000
  }

  /** Where an element lands in a filter of `n` elements. */
  function Mapped(sip: Hasher, e: Script, n: nat): nat
  {
    FastRange(sip(e), Range(n))
  }

  /** The values of a filter of fewer than 2^45 elements fit 64 bits. */
  lemma {:induction false} RangeFits(n: nat, sip: Hasher, e: Script)
    requires 0 < n < 0x2000_0000_0000
    ensures Mapped(sip, e, n) < Range(n) < U64
  {
    FastRangeBelow(sip(e), Range(n));
  }

  // ----- The code of an ascending list

  function Prev(values: seq<nat>, k: nat): nat
    requires k <= |values|
  {
    if k == 0 then 0 else values[k - 1]
  }

  lemma {:induction false} Rising(values: seq<nat>, k: nat)
    requires Ordered(values) && k < |values|
    ensures Prev(values, k) <= values[k]
  {}

  /** The differences from position `k` on, coded one after the other. */
  ghost function Deltas(values: seq<nat>, k: nat, p: nat): seq<bool>
    requires Ordered(values) && k <= |values|
    decreases |values| - k
  {
    if k == |values| then []
    else
      Rising(values, k);
      Golomb(values[k] - Prev(values, k), p) + Deltas(values, k + 1, p)
  }

  /** The bytes are the count and the coded differences, padded with zeros. */
  ghost predicate IsFilter(data: seq<Byte>, values: seq<nat>, p: nat)
  {
    && Ordered(values) && |values| < U64
    && exists body, padding :: Spells(data, values, p, body, padding)
  }

  ghost predicate Spells(data: seq<Byte>, values: seq<nat>, p: nat, body: seq<Byte>, padding: nat)
    requires Ordered(values)
  {
    data == WriteCompactSize(|values|) + body && Unpack(body) == Deltas(values, 0, p) + Zeros(padding)
  }

  lemma {:induction false} DeltasNext(done: seq<bool>, values: seq<nat>, k: nat, p: nat, v: nat, n: nat)
    requires Ordered(values) && k < |values| && v == values[k] - Prev(values, k) && n == k + 1
    ensures (done + Golomb(v, p)) + Deltas(values, n, p) == done + Deltas(values, k, p)
  {
    var code, more := Golomb(v, p), Deltas(values, n, p);
    assert Deltas(values, k, p) == code + more;
    assert (done + code) + more == done + (code + more);
  }

  method WriteDeltas(writer: BitWriter, values: seq<nat>, p: nat)
    requires Ordered(values) && writer.Valid() && writer.Bits() == []
    modifies writer
    ensures writer.Valid() && writer.Bits() == Deltas(values, 0, p)
  {
    ghost var all := Deltas(values, 0, p);
    assert [] + all == all;
    var prev := 0;
    var k := 0;
    while k < |values|
      invariant 0 <= k <= |values| && prev == Prev(values, k)
      invariant writer.Valid() && writer.Bits() + Deltas(values, k, p) == all
    {
      Rising(values, k);
      var v := values[k] - prev;
      DeltasNext(writer.Bits(), values, k, p, v, k + 1);
      writer.WriteGolombRice(v, p);
      prev := values[k];
      k := k + 1;
    }
  }

  /** Code an ascending list. */
  method EncodeSorted(values: seq<nat>, p: nat) returns (data: seq<Byte>)
    requires Ordered(values) && |values| < U64
    ensures IsFilter(data, values, p)
  {
    var writer := new BitWriter();
    WriteDeltas(writer, values, p);
    var body, padding := writer.Finish();
    data := WriteCompactSize(|values|) + body;
    assert Spells(data, values, p, body, padding);
  }

  // ----- Hashing and sorting elements

  /** The values of some elements. */
  ghost predicate Maps(sip: Hasher, n: nat, elements: set<Script>, values: seq<nat>)
  {
    && (forall v :: v in values ==> exists e :: e in elements && Mapped(sip, e, n) == v)
    && (forall e :: e in elements ==> Mapped(sip, e, n) in values)
  }

  lemma {:induction false} SortMembers(s: seq<nat>, x: nat)
    ensures x in Sort(s) <==> x in s
  {
    SortSorts(s);
    assert x in multiset(s) <==> x in multiset(Sort(s));
  }

  method HashAll(sip: Hasher, n: nat, elements: set<Script>) returns (values: seq<nat>)
    ensures |values| == |elements| && Maps(sip, n, elements, values)
  {
    values := [];
    var left := elements;
    while left != {}
      invariant left <= elements && |values| + |left| == |elements|
      invariant Maps(sip, n, elements - left, values)
      decreases left
    {
      var e :| e in left;
      MapsMore(sip, n, elements - left, values, e);
      values := values + [Mapped(sip, e, n)];
      assert elements - (left - {e}) == (elements - left) + {e};
      left := left - {e};
    }
    assert elements - left == elements;
  }

  lemma {:induction false} MapsMore(sip: Hasher, n: nat, elements: set<Script>, values: seq<nat>, e: Script)
    requires Maps(sip, n, elements, values)
    ensures Maps(sip, n, elements + {e}, values + [Mapped(sip, e, n)])
  {
    var more, all := values + [Mapped(sip, e, n)], elements + {e};
    forall v | v in more
      ensures exists x :: x in all && Mapped(sip, x, n) == v
    {
      if v in values {
        var x :| x in elements && Mapped(sip, x, n) == v;
        assert x in all;
      } else {
        assert e in all;
      }
    }
    assert more[|values|] == Mapped(sip, e, n);
  }

  lemma {:induction false} MapsSorted(sip: Hasher, n: nat, elements: set<Script>, values: seq<nat>)
    requires Maps(sip, n, elements, values)
    ensures Maps(sip, n, elements, Sort(values)) && Ordered(Sort(values))
  {
    SortSorts(values);
    forall v
      ensures v in Sort(values) <==> v in values
    {
      SortMembers(values, v);
    }
  }

  /** The bytes are a filter of the elements, all of whose values fit 64 bits. */
  ghost predicate Encodes(data: seq<Byte>, sip: Hasher, elements: set<Script>)
  {
    exists values :: EncodesAs(data, sip, elements, values)
  }

  ghost predicate EncodesAs(data: seq<Byte>, sip: Hasher, elements: set<Script>, values: seq<nat>)
  {
    && IsFilter(data, values, GOLOMB_P) && |values| == |elements|
    && Maps(sip, |elements|, elements, values)
    && (forall v :: v in values ==> v < U64)
  }

  lemma {:induction false} ValuesFit(sip: Hasher, n: nat, elements: set<Script>, values: seq<nat>, v: nat)
    requires Maps(sip, n, elements, values) && v in values && 0 < n < 0x2000_0000_0000
    ensures v < U64
  {
    var e :| e in elements && Mapped(sip, e, n) == v;
    RangeFits(n, sip, e);
  }

  /** The filter of a set of elements. */
  method GcsEncode(sip: Hasher, elements: set<Script>) returns (data: seq<Byte>)
    requires |elements| < 0x2000_0000_0000
    ensures Encodes(data, sip, elements)
  {
    var hashed := HashAll(sip, |elements|, elements);
    MapsSorted(sip, |elements|, elements, hashed);
    var values := Sort(hashed);
    data := EncodeSorted(values, GOLOMB_P);
    forall v | v in values
      ensures v < U64
    {
      ValuesFit(sip, |elements|, elements, values, v);
    }
    assert EncodesAs(data, sip, elements, values);
  }

  // ----- The filter of a block

  /** Scripts a filter lists: neither empty nor unspendable. */
  predicate Listed(e: Script)
  {
    |e| > 0 && !IsOpReturn(e)
  }

  /** `e` is created, or spent by something other than a coinbase, in transaction `i`. */
  ghost predicate TouchedBy(txs: seq<Tx>, prevScripts: seq<seq<Script>>, i: nat, e: Script)
    requires i < |txs|
  {
    || (exists o :: o in txs[i].outputs && o.script == e)
    || (!IsCoinbase(txs[i]) && i < |prevScripts| && e in prevScripts[i])
  }

  ghost predicate Touched(txs: seq<Tx>, prevScripts: seq<seq<Script>>, n: nat, e: Script)
    requires n <= |txs|
  {
    exists i :: 0 <= i < n && TouchedBy(txs, prevScripts, i, e)
  }

  method AddScripts(elements: set<Script>, scripts: seq<Script>) returns (all: set<Script>)
    ensures forall e :: e in all <==> e in elements || (Listed(e) && e in scripts)
    ensures |all| <= |elements| + |scripts|
  {
    all := elements;
    var k := 0;
    while k < |scripts|
      invariant 0 <= k <= |scripts|
      invariant forall e :: e in all <==> e in elements || (Listed(e) && e in scripts[..k])
      invariant |all| <= |elements| + k
    {
      if Listed(scripts[k]) {
        all := all + {scripts[k]};
      }
      assert scripts[..k + 1] == scripts[..k] + [scripts[k]];
      k := k + 1;
    }
    assert scripts[..k] == scripts;
  }

  /** How many scripts the first `n` transactions create or spend, counting repetitions. */
  function ScriptCount(txs: seq<Tx>, prevScripts: seq<seq<Script>>, n: nat): nat
    requires n <= |txs|
  {
    if n == 0 then 0
    else
      ScriptCount(txs, prevScripts, n - 1) + |txs[n - 1].outputs| +
      if n <= |prevScripts| then |prevScripts[n - 1]| else 0
  }

  function ScriptsOf(outputs: seq<TxOut>): (r: seq<Script>)
    ensures |r| == |outputs| && forall i :: 0 <= i < |r| ==> r[i] == outputs[i].script
  {
    if |outputs| == 0 then [] else [outputs[0].script] + ScriptsOf(outputs[1..])
  }

  lemma {:induction false} ScriptsMembers(outputs: seq<TxOut>, e: Script)
    ensures e in ScriptsOf(outputs) <==> exists o :: o in outputs && o.script == e
  {
    if e in ScriptsOf(outputs) {
      var i :| 0 <= i < |outputs| && ScriptsOf(outputs)[i] == e;
      assert outputs[i] in outputs;
    }
  }

  method AddTx(elements: set<Script>, txs: seq<Tx>, prevScripts: seq<seq<Script>>, i: nat)
    returns (all: set<Script>)
    requires i < |txs|
    ensures forall e :: e in all <==> e in elements || (Listed(e) && TouchedBy(txs, prevScripts, i, e))
    ensures |all| <= |elements| + |txs[i].outputs| + if i < |prevScripts| then |prevScripts[i]| else 0
  {
    all := AddScripts(elements, ScriptsOf(txs[i].outputs));
    forall e
      ensures e in ScriptsOf(txs[i].outputs) <==> exists o :: o in txs[i].outputs && o.script == e
    {
      ScriptsMembers(txs[i].outputs, e);
    }
    if !IsCoinbase(txs[i]) && i < |prevScripts| {
      all := AddScripts(all, prevScripts[i]);
    }
  }

  method CollectElements(txs: seq<Tx>, prevScripts: seq<seq<Script>>) returns (elements: set<Script>)
    ensures forall e :: e in elements <==> Listed(e) && Touched(txs, prevScripts, |txs|, e)
    ensures |elements| <= ScriptCount(txs, prevScripts, |txs|)
  {
    elements := {};
    var i := 0;
    while i < |txs|
      invariant 0 <= i <= |txs|
      invariant forall e :: e in elements <==> Listed(e) && Touched(txs, prevScripts, i, e)
      invariant |elements| <= ScriptCount(txs, prevScripts, i)
    {
      elements := AddTx(elements, txs, prevScripts, i);
      i := i + 1;
      forall e
        ensures Touched(txs, prevScripts, i, e) <==>
          Touched(txs, prevScripts, i - 1, e) || TouchedBy(txs, prevScripts, i - 1, e)
      {}
    }
  }

  /** The basic filter holds exactly the listed scripts its block creates or spends. */
  method BuildBasicFilter(sip: Hasher, txs: seq<Tx>, prevScripts: seq<seq<Script>>)
    returns (data: seq<Byte>, ghost elements: set<Script>)
    requires ScriptCount(txs, prevScripts, |txs|) < 0x2000_0000_0000
    ensures Encodes(data, sip, elements)
    ensures forall e :: e in elements <==> Listed(e) && Touched(txs, prevScripts, |txs|, e)
  {
    var found := CollectElements(txs, prevScripts);
    elements := found;
    if found == {} {
      data := [0];
      EmptyFilter(sip);
    } else {
      data := GcsEncode(sip, found);
    }
  }

  lemma {:induction false} EmptyFilter(sip: Hasher)
    ensures Encodes([0], sip, {})
  {
    var values: seq<nat>, body: seq<Byte> := [], [];
    assert WriteCompactSize(0) + body == [0];
    assert Spells([0], values, GOLOMB_P, body, 0);
    assert EncodesAs([0], sip, {}, values);
  }

  // ----- Matching

  function MappedAll(sip: Hasher, queries: seq<Script>, n: nat): (r: seq<nat>)
    ensures |r| == |queries| && forall i :: 0 <= i < |r| ==> r[i] == Mapped(sip, queries[i], n)
  {
    if |queries| == 0 then [] else [Mapped(sip, queries[0], n)] + MappedAll(sip, queries[1..], n)
  }

  /** Neighbours that are equal are kept once. */
  function Dedup(s: seq<nat>): seq<nat>
  {
    if |s| <= 1 then s
    else if s[0] == s[1] then Dedup(s[1..])
    else [s[0]] + Dedup(s[1..])
  }

  lemma {:induction false} DedupMembers(s: seq<nat>, x: nat)
    ensures x in Dedup(s) <==> x in s
  {
    if |s| > 1 {
      DedupMembers(s[1..], x);
      assert s == [s[0]] + s[1..];
    }
  }

  lemma {:induction false} DedupOrdered(s: seq<nat>)
    requires Ordered(s)
    ensures Ordered(Dedup(s))
  {
    if |s| > 1 {
      var rest := Dedup(s[1..]);
      DedupOrdered(s[1..]);
      forall i | 0 <= i < |rest|
        ensures s[0] <= rest[i]
      {
        DedupMembers(s[1..], rest[i]);
      }
    }
  }

  ghost predicate Meets(a: seq<nat>, b: seq<nat>)
  {
    exists v :: v in a && v in b
  }

  /** Skip the queries below a value. */
  method SkipBelow(qs: seq<nat>, from: nat, v: nat) returns (idx: nat)
    requires from <= |qs| && forall j :: 0 <= j < from ==> qs[j] < v
    ensures idx <= |qs| && (forall j :: 0 <= j < idx ==> qs[j] < v) && (idx < |qs| ==> qs[idx] >= v)
  {
    idx := from;
    while idx < |qs| && qs[idx] < v
      invariant idx <= |qs| && forall j :: 0 <= j < idx ==> qs[j] < v
    {
      idx := idx + 1;
    }
  }

  lemma {:induction false} NextDelta(values: seq<nat>, k: nat, p: nat, v: nat, n: nat, tail: seq<bool>)
    requires Ordered(values) && k < |values| && v == values[k] - Prev(values, k) && n == k + 1
    ensures Deltas(values, k, p) + tail == Golomb(v, p) + (Deltas(values, n, p) + tail)
  {
    var code, more := Golomb(v, p), Deltas(values, n, p);
    assert (code + more) + tail == code + (more + tail);
  }

  lemma {:induction false} Passed(qs: seq<nat>, values: seq<nat>, k: nat, idx: nat)
    requires Ordered(qs) && k < |values| && idx <= |qs|
    requires (forall j :: 0 <= j < idx ==> qs[j] < values[k]) && (idx < |qs| ==> qs[idx] > values[k])
    ensures values[k] !in qs
  {}

  lemma {:induction false} AllBelow(qs: seq<nat>, values: seq<nat>, k: nat)
    requires Ordered(values) && k < |values| && !Meets(qs, values[..k])
    requires forall j :: 0 <= j < |qs| ==> qs[j] < values[k]
    ensures !Meets(qs, values)
  {
    forall v | v in qs
      ensures v !in values
    {
      assert v !in values[..k];
    }
  }

  lemma {:induction false} NoMeetMore(qs: seq<nat>, values: seq<nat>, k: nat, n: nat)
    requires k < |values| && n == k + 1 && !Meets(qs, values[..k]) && values[k] !in qs
    ensures !Meets(qs, values[..n])
  {
    assert values[..n] == values[..k] + [values[k]];
    forall v | v in qs
      ensures v !in values[..n]
    {
      assert v !in values[..k];
    }
  }

  /** Walk the coded values and the queries side by side. */
  method Scan(reader: BitReader, n: nat, p: nat, qs: seq<nat>, ghost values: seq<nat>, ghost padding: nat)
    returns (hit: bool)
    requires Ordered(values) && Ordered(qs) && n == |values|
    requires reader.Valid() && reader.rest == Deltas(values, 0, p) + Zeros(padding)
    modifies reader
    ensures hit <==> Meets(qs, values)
  {
    var value: nat, idx: nat, k: nat := 0, 0, 0;
    while k < n
      invariant 0 <= k <= n && idx <= |qs| && value == Prev(values, k)
      invariant forall j :: 0 <= j < idx ==> qs[j] < value
      invariant !Meets(qs, values[..k])
      invariant reader.Valid() && reader.rest == Deltas(values, k, p) + Zeros(padding)
    {
      Rising(values, k);
      ghost var v, next := values[k] - value, k + 1;
      NextDelta(values, k, p, v, next, Zeros(padding));
      var delta := reader.ReadBack(p, v, Deltas(values, next, p) + Zeros(padding));
      value := value + delta;
      idx := SkipBelow(qs, idx, value);
      if idx < |qs| && qs[idx] == value {
        assert values[k] in values && qs[idx] in qs;
        return true;
      }
      if idx >= |qs| {
        AllBelow(qs, values, k);
        return false;
      }
      Passed(qs, values, k, idx);
      NoMeetMore(qs, values, k, next);
      k := k + 1;
    }
    assert values[..k] == values;
    return false;
  }

  /** Some query lands on the value of some element. */
  ghost predicate Collides(sip: Hasher, n: nat, queries: seq<Script>, elements: set<Script>)
  {
    exists q, e :: q in queries && e in elements && Mapped(sip, q, n) == Mapped(sip, e, n)
  }

  lemma {:induction false} MeetsIsCollides(sip: Hasher, n: nat, queries: seq<Script>, elements: set<Script>,
                                           values: seq<nat>, qs: seq<nat>)
    requires Maps(sip, n, elements, values)
    requires forall v :: v in qs <==> v in MappedAll(sip, queries, n)
    ensures Meets(qs, values) <==> Collides(sip, n, queries, elements)
  {
    var mapped := MappedAll(sip, queries, n);
    if Meets(qs, values) {
      var v :| v in qs && v in values;
      var i :| 0 <= i < |mapped| && mapped[i] == v;
      var e :| e in elements && Mapped(sip, e, n) == v;
      assert queries[i] in queries;
    }
    if Collides(sip, n, queries, elements) {
      var q, e :| q in queries && e in elements && Mapped(sip, q, n) == Mapped(sip, e, n);
      var i :| 0 <= i < |queries| && queries[i] == q;
      assert mapped[i] in mapped;
      assert mapped[i] in qs && mapped[i] in values;
    }
  }

  method SortQueries(sip: Hasher, queries: seq<Script>, n: nat) returns (qs: seq<nat>)
    ensures Ordered(qs) && forall v :: v in qs <==> v in MappedAll(sip, queries, n)
  {
    var mapped := MappedAll(sip, queries, n);
    qs := Dedup(Sort(mapped));
    SortSorts(mapped);
    DedupOrdered(Sort(mapped));
    forall v
      ensures v in qs <==> v in mapped
    {
      SortMembers(mapped, v);
      DedupMembers(Sort(mapped), v);
    }
  }

  lemma {:induction false} FilterParts(data: seq<Byte>, sip: Hasher, elements: set<Script>)
    returns (values: seq<nat>, body: seq<Byte>, padding: nat)
    requires Encodes(data, sip, elements)
    ensures EncodesAs(data, sip, elements, values) && Spells(data, values, GOLOMB_P, body, padding)
    ensures Readable(data) && |data| > 0 && ReadCompactSize(data) == (|values|, |data| - |body|)
    ensures data[|data| - |body|..] == body
  {
    values :| EncodesAs(data, sip, elements, values);
    body, padding :| Spells(data, values, GOLOMB_P, body, padding);
    CompactRoundTrip(|values|, body);
  }

  /** On any filter: true exactly when a query lands on an element's value, so a listed query is never missed. */
  method MatchAny(data: seq<Byte>, sip: Hasher, queries: seq<Script>, ghost elements: set<Script>)
    returns (hit: bool)
    requires Encodes(data, sip, elements)
    ensures hit <==> Collides(sip, |elements|, queries, elements)
    ensures (exists q :: q in queries && q in elements) ==> hit
  {
    ghost var values, body, padding := FilterParts(data, sip, elements);
    if |queries| == 0 {
      return false;
    }
    if |data| == 0 || data == [0] {
      return false;
    }
    var (n, offset) := ReadCompactSize(data);
    if n == 0 {
      return false;
    }
    var qs := SortQueries(sip, queries, n);
    MeetsIsCollides(sip, n, queries, elements, values, qs);
    var reader := new BitReader(data[offset..]);
    hit := Scan(reader, n, GOLOMB_P, qs, values, padding);
  }
}
