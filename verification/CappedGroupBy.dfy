/** The specification shared by every bounded aggregation table of the profiler: a group-by
    restricted to the first `cap` distinct keys, in order of first appearance. */
module CappedGroupBy {
  import opened Machine
  import opened Sums

  /** One contribution: two amounts credited to a key. */
  datatype Record<+K> = Record(key: K, first: nat, second: nat) {
    function Amount(): Pair {
      Pair(first, second)
    }
  }

  datatype Pair = Pair(first: nat, second: nat)

  function Clamp(p: Pair): Pair {
    Pair(SatI64(p.first), SatI64(p.second))
  }

  function Plus(p: Pair, q: Pair): Pair {
    Pair(p.first + q.first, p.second + q.second)
  }

  /** Two `i64::saturating_add` on non-negative amounts. */
  function SaturatingPlus(p: Pair, q: Pair): Pair {
    Clamp(Plus(p, q))
  }

  lemma ClampPlus(p: Pair, q: Pair)
    ensures SaturatingPlus(Clamp(p), Clamp(q)) == Clamp(Plus(p, q))
  {
  }

  /** Keys in order of first appearance. */
  function Distinct<K(==)>(rs: seq<Record<K>>): seq<K> {
    if rs == [] then []
    else
      var n := |rs| - 1;
      var ks := Distinct(rs[..n]);
      if rs[n].key in ks then ks else ks + [rs[n].key]
  }

  function Kept<K(==)>(rs: seq<Record<K>>, cap: nat): seq<K> {
    var ks := Distinct(rs);
    if |ks| <= cap then ks else ks[..cap]
  }

  /** The uncapped group-by: everything credited to `k`. */
  function SumOf<K(==)>(rs: seq<Record<K>>, k: K): Pair {
    if rs == [] then Pair(0, 0)
    else
      var n := |rs| - 1;
      if rs[n].key == k then Plus(SumOf(rs[..n], k), rs[n].Amount()) else SumOf(rs[..n], k)
  }

  /** The group-by restricted to the keys in `kept`. */
  function Restricted<K(==)>(rs: seq<Record<K>>, kept: seq<K>): map<K, Pair> {
    map k | k in kept :: Clamp(SumOf(rs, k))
  }

  function Capped<K(==)>(rs: seq<Record<K>>, cap: nat): map<K, Pair> {
    Restricted(rs, Kept(rs, cap))
  }

  /** The records whose key did not make it into the table. */
  function Outside<K(==)>(rs: seq<Record<K>>, kept: seq<K>): seq<Record<K>> {
    if rs == [] then []
    else
      var n := |rs| - 1;
      Outside(rs[..n], kept) + (if rs[n].key in kept then [] else [rs[n]])
  }

  function Dropped<K(==)>(rs: seq<Record<K>>, cap: nat): seq<Record<K>> {
    Outside(rs, Kept(rs, cap))
  }

  function Sum<K>(rs: seq<Record<K>>): Pair {
    if rs == [] then Pair(0, 0)
    else
      var n := |rs| - 1;
      Plus(Sum(rs[..n]), rs[n].Amount())
  }

  /** One insertion as the tables do it. */
  function Credit<K(==)>(table: map<K, Pair>, r: Record<K>, cap: nat): map<K, Pair> {
    var amount := Clamp(r.Amount());
    if r.key in table then table[r.key := SaturatingPlus(table[r.key], amount)]
    else if |table| < cap then table[r.key := amount]
    else table
  }

  lemma {:induction false} NoRepeats<K>(ks: seq<K>)
    requires forall i, j :: 0 <= i < j < |ks| ==> ks[i] != ks[j]
    ensures |set k | k in ks| == |ks|
  {
    if ks != [] {
      var n := |ks| - 1;
      NoRepeats(ks[..n]);
      assert (set k | k in ks) == (set k | k in ks[..n]) + {ks[n]};
    }
  }

  lemma {:induction false} DistinctNoRepeats<K>(rs: seq<Record<K>>)
    ensures forall i, j :: 0 <= i < j < |Distinct(rs)| ==> Distinct(rs)[i] != Distinct(rs)[j]
  {
    if rs != [] {
      DistinctNoRepeats(rs[..|rs| - 1]);
    }
  }

  /** The distinct keys are the keys that occur. */
  lemma {:induction false} DistinctMember<K>(rs: seq<Record<K>>, k: K)
    ensures k in Distinct(rs) <==> exists i :: 0 <= i < |rs| && rs[i].key == k
  {
    if rs != [] {
      var n := |rs| - 1;
      DistinctMember(rs[..n], k);
      if i :| 0 <= i < n && rs[i].key == k {
        assert rs[..n][i].key == k;
      }
    }
  }

  lemma CappedSize<K>(rs: seq<Record<K>>, cap: nat)
    ensures Capped(rs, cap).Keys == set k | k in Kept(rs, cap)
    ensures |Capped(rs, cap)| == |Kept(rs, cap)| == Min(|Distinct(rs)|, cap)
  {
    DistinctNoRepeats(rs);
    NoRepeats(Kept(rs, cap));
  }

  lemma DropLast<K>(rs: seq<Record<K>>, r: Record<K>)
    ensures |rs + [r]| - 1 == |rs| && (rs + [r])[..|rs|] == rs && (rs + [r])[|rs|] == r
  {
  }

  lemma {:induction false} SumOfAbsent<K>(rs: seq<Record<K>>, k: K)
    requires k !in Distinct(rs)
    ensures SumOf(rs, k) == Pair(0, 0)
  {
    if rs != [] {
      SumOfAbsent(rs[..|rs| - 1], k);
    }
  }

  /** Keeping one more key changes nothing for records that never carry it. */
  lemma {:induction false} OutsideGrow<K>(rs: seq<Record<K>>, kept: seq<K>, k: K)
    requires k !in Distinct(rs)
    ensures Outside(rs, kept + [k]) == Outside(rs, kept)
  {
    if rs != [] {
      OutsideGrow(rs[..|rs| - 1], kept, k);
      assert rs[|rs| - 1].key != k;
    }
  }

  /** The kept keys grow by the new key exactly when it is new and there is room. */
  lemma KeptStep<K>(rs: seq<Record<K>>, r: Record<K>, cap: nat)
    ensures Kept(rs + [r], cap)
      == if r.key !in Distinct(rs) && |Kept(rs, cap)| < cap then Kept(rs, cap) + [r.key] else Kept(rs, cap)
    ensures r.key in Distinct(rs) && |Kept(rs, cap)| < cap ==> r.key in Kept(rs, cap)
  {
    DropLast(rs, r);
  }

  lemma OutsideStep<K>(rs: seq<Record<K>>, r: Record<K>, kept: seq<K>)
    ensures Outside(rs + [r], kept) == Outside(rs, kept) + (if r.key in kept then [] else [r])
  {
    DropLast(rs, r);
  }

  lemma SumOfStep<K>(rs: seq<Record<K>>, r: Record<K>, k: K)
    ensures SumOf(rs + [r], k)
      == if r.key == k then Plus(SumOf(rs, k), r.Amount()) else SumOf(rs, k)
  {
    DropLast(rs, r);
  }

  /** Adding a record at the end is exactly one `Credit`; the record is dropped exactly when
      its key is not in the resulting table. */
  lemma Step<K>(rs: seq<Record<K>>, r: Record<K>, cap: nat)
    ensures Capped(rs + [r], cap) == Credit(Capped(rs, cap), r, cap)
    ensures Dropped(rs + [r], cap)
      == Dropped(rs, cap) + (if r.key in Capped(rs + [r], cap) then [] else [r])
    ensures Capped(rs, cap).Keys <= Capped(rs + [r], cap).Keys
    ensures r.key in Capped(rs + [r], cap) <==> r.key in Capped(rs, cap) || |Capped(rs, cap)| < cap
  {
    CreditStep(rs, r, cap);
    KeptStep(rs, r, cap);
    OutsideStep(rs, r, Kept(rs + [r], cap));
    if r.key !in Distinct(rs) {
      OutsideGrow(rs, Kept(rs, cap), r.key);
    }
  }

  lemma RestrictedAt<K>(rs: seq<Record<K>>, r: Record<K>, kept: seq<K>, k: K)
    requires k in kept
    ensures r.key != k ==> Restricted(rs + [r], kept)[k] == Restricted(rs, kept)[k]
    ensures r.key == k
      ==> Restricted(rs + [r], kept)[k] == SaturatingPlus(Restricted(rs, kept)[k], Clamp(r.Amount()))
  {
    SumOfStep(rs, r, k);
    ClampPlus(SumOf(rs, k), r.Amount());
  }

  lemma RestrictedMiss<K>(rs: seq<Record<K>>, r: Record<K>, kept: seq<K>)
    requires r.key !in kept
    ensures Restricted(rs + [r], kept) == Restricted(rs, kept)
  {
    forall k | k in kept
      ensures Restricted(rs + [r], kept)[k] == Restricted(rs, kept)[k]
    {
      RestrictedAt(rs, r, kept, k);
    }
  }

  lemma RestrictedHit<K>(rs: seq<Record<K>>, r: Record<K>, kept: seq<K>)
    requires r.key in kept
    ensures Restricted(rs + [r], kept) == Restricted(rs, kept)[r.key := Restricted(rs + [r], kept)[r.key]]
  {
    forall k | k in kept && k != r.key
      ensures Restricted(rs + [r], kept)[k] == Restricted(rs, kept)[k]
    {
      RestrictedAt(rs, r, kept, k);
    }
  }

  lemma RestrictedGrow<K>(rs: seq<Record<K>>, r: Record<K>, kept: seq<K>)
    requires r.key !in Distinct(rs) && r.key !in kept
    ensures Restricted(rs + [r], kept + [r.key]) == Restricted(rs, kept)[r.key := Clamp(r.Amount())]
  {
    SumOfAbsent(rs, r.key);
    forall k | k in kept + [r.key]
      ensures Restricted(rs + [r], kept + [r.key])[k]
           == if k == r.key then Clamp(r.Amount()) else Restricted(rs, kept)[k]
    {
      RestrictedAt(rs, r, kept + [r.key], k);
    }
  }

  lemma CreditStep<K>(rs: seq<Record<K>>, r: Record<K>, cap: nat)
    ensures Capped(rs + [r], cap) == Credit(Capped(rs, cap), r, cap)
    ensures r.key in Capped(rs + [r], cap) <==> r.key in Capped(rs, cap) || |Capped(rs, cap)| < cap
  {
    var kept := Kept(rs, cap);
    assert |Capped(rs, cap)| == |kept| by {
      CappedSize(rs, cap);
    }
    KeptStep(rs, r, cap);
    assert r.key in kept ==> r.key in Distinct(rs);
    if r.key in kept {
      RestrictedHit(rs, r, kept);
      RestrictedAt(rs, r, kept, r.key);
    } else if |kept| < cap {
      RestrictedGrow(rs, r, kept);
    } else {
      RestrictedMiss(rs, r, kept);
    }
  }

  lemma Empty<K>(cap: nat)
    ensures Capped<K>([], cap) == map[]
    ensures Dropped<K>([], cap) == []
  {
  }

  /** The table keeps the first `cap` distinct keys with their uncapped sums, and nothing else. */
  lemma CappedMeaning<K>(rs: seq<Record<K>>, cap: nat, k: K)
    ensures k in Capped(rs, cap) <==> k in Distinct(rs)[..Min(|Distinct(rs)|, cap)]
    ensures k in Capped(rs, cap) && SumOf(rs, k).first <= I64_MAX && SumOf(rs, k).second <= I64_MAX
      ==> Capped(rs, cap)[k] == SumOf(rs, k)
    ensures |Capped(rs, cap)| == Min(|Distinct(rs)|, cap)
    ensures k in Distinct(rs) <==> exists i :: 0 <= i < |rs| && rs[i].key == k
  {
    CappedSize(rs, cap);
    DistinctMember(rs, k);
    var ks := Distinct(rs);
    assert ks[..|ks|] == ks;
    assert Kept(rs, cap) == ks[..Min(|ks|, cap)];
  }

  ghost function Firsts<K>(m: map<K, Pair>): map<K, nat> {
    map k | k in m :: m[k].first
  }

  ghost function Seconds<K>(m: map<K, Pair>): map<K, nat> {
    map k | k in m :: m[k].second
  }

  lemma {:induction false} SumOfBound<K>(rs: seq<Record<K>>, k: K)
    ensures SumOf(rs, k).first <= Sum(rs).first && SumOf(rs, k).second <= Sum(rs).second
  {
    if rs != [] {
      SumOfBound(rs[..|rs| - 1], k);
    }
  }

  lemma SumStep<K>(rs: seq<Record<K>>, r: Record<K>)
    ensures Sum(rs + [r]) == Plus(Sum(rs), r.Amount())
  {
    DropLast(rs, r);
  }

  lemma CreditTotals<K>(table: map<K, Pair>, r: Record<K>, cap: nat)
    ensures var after := Credit(table, r, cap); var hit, before := r.key in after, if r.key in table then table[r.key] else Pair(0, 0);
            && (before.first + r.first <= I64_MAX ==>
                  Total(Firsts(after)) == Total(Firsts(table)) + (if hit then r.first else 0))
            && (before.second + r.second <= I64_MAX ==>
                  Total(Seconds(after)) == Total(Seconds(table)) + (if hit then r.second else 0))
  {
    var after := Credit(table, r, cap);
    if r.key in after {
      assert Firsts(after) == Firsts(table)[r.key := after[r.key].first];
      assert Seconds(after) == Seconds(table)[r.key := after[r.key].second];
      TotalUpdate(Firsts(table), r.key, after[r.key].first);
      TotalUpdate(Seconds(table), r.key, after[r.key].second);
    }
  }

  /** Conservation: what a column of the table shows plus what was dropped of it is everything that
      came in, unless that column alone passes the `i64` ceiling. */
  lemma {:induction false} Conservation<K>(rs: seq<Record<K>>, cap: nat)
    ensures Sum(rs).first <= I64_MAX
      ==> Total(Firsts(Capped(rs, cap))) + Sum(Dropped(rs, cap)).first == Sum(rs).first
    ensures Sum(rs).second <= I64_MAX
      ==> Total(Seconds(Capped(rs, cap))) + Sum(Dropped(rs, cap)).second == Sum(rs).second
  {
    if rs == [] {
      Empty<K>(cap);
      assert Firsts(Capped(rs, cap)) == map[] && Seconds(Capped(rs, cap)) == map[];
    } else {
      var n := |rs| - 1;
      assert rs == rs[..n] + [rs[n]];
      SumStep(rs[..n], rs[n]);
      Conservation(rs[..n], cap);
      ConservationStep(rs[..n], rs[n], cap);
    }
  }

  lemma ConservationStep<K>(rs: seq<Record<K>>, r: Record<K>, cap: nat)
    ensures Sum(rs + [r]).first <= I64_MAX
      ==> Total(Firsts(Capped(rs + [r], cap))) + Sum(Dropped(rs + [r], cap)).first
          == Total(Firsts(Capped(rs, cap))) + Sum(Dropped(rs, cap)).first + r.first
    ensures Sum(rs + [r]).second <= I64_MAX
      ==> Total(Seconds(Capped(rs + [r], cap))) + Sum(Dropped(rs + [r], cap)).second
          == Total(Seconds(Capped(rs, cap))) + Sum(Dropped(rs, cap)).second + r.second
  {
    var table, after := Capped(rs, cap), Capped(rs + [r], cap);
    SumStep(rs, r);
    Step(rs, r, cap);
    SumOfBound(rs, r.key);
    CreditTotals(table, r, cap);
    if r.key in after {
      assert Dropped(rs + [r], cap) == Dropped(rs, cap);
    } else {
      SumStep(Dropped(rs, cap), r);
    }
  }

  // Tables whose first column counts contributions.

  lemma {:induction false} UnitSum<K>(rs: seq<Record<K>>)
    requires forall i :: 0 <= i < |rs| ==> rs[i].first == 1
    ensures Sum(rs).first == |rs|
  {
    if rs != [] {
      UnitSum(rs[..|rs| - 1]);
    }
  }

  lemma {:induction false} UnitOutside<K>(rs: seq<Record<K>>, kept: seq<K>)
    requires forall i :: 0 <= i < |rs| ==> rs[i].first == 1
    ensures forall i :: 0 <= i < |Outside(rs, kept)| ==> Outside(rs, kept)[i].first == 1
  {
    if rs != [] {
      UnitOutside(rs[..|rs| - 1], kept);
    }
  }

  /** With one a contribution, what is dropped sums to how often something was dropped. */
  lemma UnitDropped<K>(rs: seq<Record<K>>, cap: nat)
    requires forall i :: 0 <= i < |rs| ==> rs[i].first == 1
    ensures Sum(Dropped(rs, cap)).first == |Dropped(rs, cap)|
  {
    UnitOutside(rs, Kept(rs, cap));
    UnitSum(Dropped(rs, cap));
  }
}
