/**
 Token totals, token histories, and lists of buckets keyed by (model, service tier)
 (src-tauri/src/model.rs, src-tauri/src/correlation.rs).
 */
module Buckets {
  import opened Prelude

  datatype Tokens = Tokens(input: nat, cached: nat, cacheCreation: nat, output: nat, reasoning: nat, total: nat)

  const ZERO := Tokens(0, 0, 0, 0, 0, 0)

  /** One point of a session's token history. */
  datatype Point = Point(
    at: int, model: Option<string>, tier: Option<string>, requestInput: nat, runningTotal: nat, delta: Tokens)

  function SumDeltas(points: seq<Point>): Tokens {
    if points == [] then ZERO else Add(SumDeltas(points[..|points| - 1]), points[|points| - 1].delta)
  }

  /** Field-wise accumulation. */
  function Add(a: Tokens, b: Tokens): Tokens {
    Tokens(a.input + b.input, a.cached + b.cached, a.cacheCreation + b.cacheCreation,
           a.output + b.output, a.reasoning + b.reasoning, a.total + b.total)
  }

  /** Addition where `None` is "no entry". */
  function Plus(a: Option<Tokens>, b: Option<Tokens>): Option<Tokens> {
    if a.None? then b else if b.None? then a else Some(Add(a.value, b.value))
  }

  // ----- the order of bucket keys

  lemma {:induction false} StringOrder(a: string, b: string)
    ensures StringLess(a, b) ==> a != b && !StringLess(b, a)
    ensures a == b || StringLess(a, b) || StringLess(b, a)
  {
    if a != [] && b != [] {
      StringOrder(a[1..], b[1..]);
      assert a == [a[0]] + a[1..] && b == [b[0]] + b[1..];
    }
  }

  lemma {:induction false} StringTransitive(a: string, b: string, c: string)
    requires StringLess(a, b) && StringLess(b, c)
    ensures StringLess(a, c)
  {
    if a != [] && a[0] == b[0] == c[0] {
      StringTransitive(a[1..], b[1..], c[1..]);
    }
  }

  datatype Key = Key(model: string, tier: Option<string>)

  predicate TierLess(a: Option<string>, b: Option<string>) {
    b.Some? && (a.None? || StringLess(a.value, b.value))
  }

  predicate Less(a: Key, b: Key) {
    StringLess(a.model, b.model) || (a.model == b.model && TierLess(a.tier, b.tier))
  }

  lemma KeyOrder(a: Key, b: Key)
    ensures Less(a, b) ==> a != b && !Less(b, a)
    ensures a == b || Less(a, b) || Less(b, a)
  {
    StringOrder(a.model, b.model);
    if a.tier.Some? && b.tier.Some? {
      StringOrder(a.tier.value, b.tier.value);
    }
  }

  lemma KeyTransitive(a: Key, b: Key, c: Key)
    requires Less(a, b) && Less(b, c)
    ensures Less(a, c)
  {
    if StringLess(a.model, b.model) && StringLess(b.model, c.model) {
      StringTransitive(a.model, b.model, c.model);
    } else if a.model == b.model && b.model == c.model && a.tier.Some? {
      StringTransitive(a.tier.value, b.tier.value, c.tier.value);
    }
  }

  // ----- bucket lists

  datatype Bucket = Bucket(key: Key, tokens: Tokens)

  predicate UniqueKeys(bs: seq<Bucket>) {
    forall i, j :: 0 <= i < j < |bs| ==> bs[i].key != bs[j].key
  }

  /** What a list says about one key. */
  function Lookup(bs: seq<Bucket>, k: Key): Option<Tokens> {
    if bs == [] then None else if bs[0].key == k then Some(bs[0].tokens) else Lookup(bs[1..], k)
  }

  /** The sum of all entries for one key, whether or not keys repeat. */
  function SumFor(bs: seq<Bucket>, k: Key): Option<Tokens> {
    if bs == [] then None
    else Plus(SumFor(bs[..|bs| - 1], k), if bs[|bs| - 1].key == k then Some(bs[|bs| - 1].tokens) else None)
  }

  function Sum(bs: seq<Bucket>): Tokens {
    if bs == [] then ZERO else Add(bs[0].tokens, Sum(bs[1..]))
  }

  /** `add_bucket`: into the first bucket with the same key, or at the end. */
  function AddBucket(bs: seq<Bucket>, b: Bucket): seq<Bucket> {
    if bs == [] then [b]
    else if bs[0].key == b.key then [bs[0].(tokens := Add(bs[0].tokens, b.tokens))] + bs[1..]
    else [bs[0]] + AddBucket(bs[1..], b)
  }

  function AddBuckets(bs: seq<Bucket>, more: seq<Bucket>): seq<Bucket> {
    if more == [] then bs else AddBucket(AddBuckets(bs, more[..|more| - 1]), more[|more| - 1])
  }

  /** One key gains the tokens, the others are as before. */
  lemma {:induction false} AddBucketLookup(bs: seq<Bucket>, b: Bucket, k: Key)
    ensures Lookup(AddBucket(bs, b), k) == Plus(Lookup(bs, k), if k == b.key then Some(b.tokens) else None)
  {
    if bs != [] {
      if bs[0].key != b.key {
        AddBucketLookup(bs[1..], b, k);
      }
      assert AddBucket(bs, b)[1..] == if bs[0].key == b.key then bs[1..] else AddBucket(bs[1..], b);
    }
  }

  /** Nothing is lost or invented. */
  lemma {:induction false} AddBucketSum(bs: seq<Bucket>, b: Bucket)
    ensures Sum(AddBucket(bs, b)) == Add(Sum(bs), b.tokens)
  {
    if bs != [] {
      if bs[0].key != b.key {
        AddBucketSum(bs[1..], b);
      }
      assert AddBucket(bs, b)[1..] == if bs[0].key == b.key then bs[1..] else AddBucket(bs[1..], b);
    }
  }

  lemma {:induction false} AddBucketUnique(bs: seq<Bucket>, b: Bucket)
    requires UniqueKeys(bs)
    ensures UniqueKeys(AddBucket(bs, b))
    ensures forall x :: x in AddBucket(bs, b) ==> x.key == b.key || x in bs
  {
    if bs != [] {
      UniqueCons(bs);
      if bs[0].key == b.key {
        UniqueJoin(bs[0].(tokens := Add(bs[0].tokens, b.tokens)), bs[1..]);
      } else {
        AddBucketUnique(bs[1..], b);
        UniqueJoin(bs[0], AddBucket(bs[1..], b));
      }
    }
  }

  lemma UniqueCons(bs: seq<Bucket>)
    requires bs != [] && UniqueKeys(bs)
    ensures UniqueKeys(bs[1..])
    ensures forall x :: x in bs[1..] ==> x.key != bs[0].key
  {
  }

  lemma UniqueJoin(b: Bucket, bs: seq<Bucket>)
    requires UniqueKeys(bs) && forall x :: x in bs ==> x.key != b.key
    ensures UniqueKeys([b] + bs)
  {
  }

  lemma PlusAssociative(a: Option<Tokens>, b: Option<Tokens>, c: Option<Tokens>)
    ensures Plus(Plus(a, b), c) == Plus(a, Plus(b, c))
    ensures Plus(a, b) == Plus(b, a)
  {
  }

  /** Adding a list adds, for every key, the sum of that list for that key. */
  lemma {:induction false} AddBucketsLookup(bs: seq<Bucket>, more: seq<Bucket>, k: Key)
    ensures Lookup(AddBuckets(bs, more), k) == Plus(Lookup(bs, k), SumFor(more, k))
  {
    if more != [] {
      var n := |more| - 1;
      AddBucketsLookup(bs, more[..n], k);
      AddBucketLookup(AddBuckets(bs, more[..n]), more[n], k);
      PlusAssociative(Lookup(bs, k), SumFor(more[..n], k), if more[n].key == k then Some(more[n].tokens) else None);
    }
  }

  lemma {:induction false} AddBucketsUnique(bs: seq<Bucket>, more: seq<Bucket>)
    requires UniqueKeys(bs)
    ensures UniqueKeys(AddBuckets(bs, more))
  {
    if more != [] {
      AddBucketsUnique(bs, more[..|more| - 1]);
      AddBucketUnique(AddBuckets(bs, more[..|more| - 1]), more[|more| - 1]);
    }
  }

  lemma {:induction false} AddBucketsSum(bs: seq<Bucket>, more: seq<Bucket>)
    ensures Sum(AddBuckets(bs, more)) == Add(Sum(bs), Sum(more))
  {
    if more == [] {
      AddZero(Sum(bs));
    } else {
      var n := |more| - 1;
      var front, last := more[..n], more[n];
      AddBucketsSum(bs, front);
      OneMoreBucket(AddBuckets(bs, front), last, Sum(bs), Sum(front));
      SumLast(more);
    }
  }

  lemma AddZero(t: Tokens)
    ensures Add(t, ZERO) == t && Add(ZERO, t) == t
  {
  }

  lemma OneMoreBucket(bs: seq<Bucket>, b: Bucket, s: Tokens, t: Tokens)
    requires Sum(bs) == Add(s, t)
    ensures Sum(AddBucket(bs, b)) == Add(s, Add(t, b.tokens))
  {
    AddBucketSum(bs, b);
  }

  lemma {:induction false} SumLast(bs: seq<Bucket>)
    requires bs != []
    ensures Sum(bs) == Add(Sum(bs[..|bs| - 1]), bs[|bs| - 1].tokens)
  {
    if |bs| > 1 {
      SumLast(bs[1..]);
      assert bs[1..][..|bs| - 2] == bs[..|bs| - 1][1..];
    }
  }

  // ----- the canonical order

  predicate Sorted(bs: seq<Bucket>) {
    forall i, j :: 0 <= i < j < |bs| ==> Less(bs[i].key, bs[j].key)
  }

  function Insert(bs: seq<Bucket>, b: Bucket): seq<Bucket> {
    if bs == [] then [b]
    else if Less(bs[0].key, b.key) then [bs[0]] + Insert(bs[1..], b)
    else [b] + bs
  }

  /** The final sort by model and tier. */
  function Sort(bs: seq<Bucket>): seq<Bucket> {
    if bs == [] then [] else Insert(Sort(bs[1..]), bs[0])
  }

  lemma {:induction false} InsertFacts(bs: seq<Bucket>, b: Bucket)
    requires Sorted(bs) && Lookup(bs, b.key).None?
    ensures Sorted(Insert(bs, b))
    ensures forall x :: x in Insert(bs, b) <==> x == b || x in bs
    ensures forall k :: Lookup(Insert(bs, b), k) == if k == b.key then Some(b.tokens) else Lookup(bs, k)
  {
    if bs != [] {
      KeyOrder(bs[0].key, b.key);
      assert bs == [bs[0]] + bs[1..];
      if Less(bs[0].key, b.key) {
        SortedCons(bs);
        InsertFacts(bs[1..], b);
        SortedJoin(bs[0], Insert(bs[1..], b));
        assert Insert(bs, b)[1..] == Insert(bs[1..], b);
      } else {
        assert bs[0].key != b.key;
        forall x | x in bs ensures Less(b.key, x.key) {
          var i :| 0 <= i < |bs| && bs[i] == x;
          if i > 0 {
            KeyTransitive(b.key, bs[0].key, bs[i].key);
          }
        }
        SortedJoin(b, bs);
        assert ([b] + bs)[1..] == bs;
      }
    }
  }

  lemma SortedCons(bs: seq<Bucket>)
    requires bs != [] && Sorted(bs)
    ensures Sorted(bs[1..]) && forall x :: x in bs[1..] ==> Less(bs[0].key, x.key)
  {
  }

  lemma SortedJoin(b: Bucket, bs: seq<Bucket>)
    requires Sorted(bs) && forall x :: x in bs ==> Less(b.key, x.key)
    ensures Sorted([b] + bs)
  {
  }

  lemma {:induction false} LookupNone(bs: seq<Bucket>, k: Key)
    ensures Lookup(bs, k).None? <==> forall x :: x in bs ==> x.key != k
  {
    if bs != [] {
      LookupNone(bs[1..], k);
      assert forall x :: x in bs <==> x == bs[0] || x in bs[1..];
    }
  }

  lemma {:induction false} SortFacts(bs: seq<Bucket>)
    requires UniqueKeys(bs)
    ensures Sorted(Sort(bs))
    ensures forall k :: Lookup(Sort(bs), k) == Lookup(bs, k)
  {
    if bs != [] {
      UniqueCons(bs);
      SortFacts(bs[1..]);
      LookupNone(bs[1..], bs[0].key);
      InsertFacts(Sort(bs[1..]), bs[0]);
    }
  }

  /** A sorted list is determined by what it says about each key. */
  lemma {:induction false} SortedIsCanonical(a: seq<Bucket>, b: seq<Bucket>)
    requires Sorted(a) && Sorted(b)
    requires forall k :: Lookup(a, k) == Lookup(b, k)
    ensures a == b
  {
    if b != [] {
      assert Lookup(b, b[0].key).Some?;
    }
    if a != [] {
      HeadIsLeast(a, b);
      SortedCons(a);
      SortedCons(b);
      forall k ensures Lookup(a[1..], k) == Lookup(b[1..], k) {
        KeyOrder(a[0].key, a[0].key);
        LookupNone(a[1..], a[0].key);
        LookupNone(b[1..], a[0].key);
        assert Lookup(a, k) == Lookup(b, k);
      }
      SortedIsCanonical(a[1..], b[1..]);
      assert a == [a[0]] + a[1..] && b == [b[0]] + b[1..];
    }
  }

  lemma HeadIsLeast(a: seq<Bucket>, b: seq<Bucket>)
    requires Sorted(a) && Sorted(b) && a != []
    requires forall k :: Lookup(a, k) == Lookup(b, k)
    ensures b != [] && a[0] == b[0]
  {
    assert Lookup(a, a[0].key) == Some(a[0].tokens);
    LookupNone(b, a[0].key);
    var x :| x in b && x.key == a[0].key;
    assert b != [];
    assert Lookup(b, b[0].key) == Some(b[0].tokens);
    LookupNone(a, b[0].key);
    var y :| y in a && y.key == b[0].key;
    KeyOrder(a[0].key, b[0].key);
    var i :| 0 <= i < |b| && b[i] == x;
    var j :| 0 <= j < |a| && a[j] == y;
  }

  /** Two lists with unique keys that say the same about each key sort to the same list. */
  lemma SortIsCanonical(a: seq<Bucket>, b: seq<Bucket>)
    requires UniqueKeys(a) && UniqueKeys(b)
    requires forall k :: Lookup(a, k) == Lookup(b, k)
    ensures Sort(a) == Sort(b)
  {
    SortFacts(a);
    SortFacts(b);
    SortedIsCanonical(Sort(a), Sort(b));
  }
}
