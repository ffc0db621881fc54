/** The contents of the TTL+LRU cache as a value: entries from least to most recently used, one
    step per operation, and what every run of operations guarantees. */
module CacheStore {
  import opened Basics

  datatype Entry<V> = Entry(key: string, expiresAt: real, value: V)

  datatype Op<V> =
    | Get(key: string, now: real)
    | Set(key: string, value: V, ttl: Option<int>, now: real)
    | Invalidate(prefix: string)

  datatype Config = Config(defaultTtl: int, maxSize: nat)

  /** Which entries a deletion leaves in place. */
  datatype Keep = Except(key: string) | Outside(prefix: string)

  predicate Keeps(k: Keep, key: string) {
    match k
    case Except(x) => key != x
    case Outside(p) => !(p <= key)
  }

  function Filter<V>(s: seq<Entry<V>>, k: Keep): seq<Entry<V>> {
    if s == [] then []
    else if Keeps(k, s[0].key) then [s[0]] + Filter(s[1..], k)
    else Filter(s[1..], k)
  }

  function Find<V>(s: seq<Entry<V>>, key: string): Option<Entry<V>> {
    if s == [] then None
    else if s[0].key == key then Some(s[0])
    else Find(s[1..], key)
  }

  predicate DistinctKeys<V>(s: seq<Entry<V>>) {
    forall i, j :: 0 <= i < j < |s| ==> s[i].key != s[j].key
  }

  function Expiry(ttl: Option<int>, now: real, c: Config): real {
    now + (if ttl.Some? && ttl.value != 0 then ttl.value else c.defaultTtl) as real
  }

  /** A write lives for the time it is given, or for the default when it is given none or zero. */
  lemma LivesFor(ttl: Option<int>, now: real, c: Config)
    ensures ttl.Some? && ttl.value != 0 ==> Expiry(ttl, now, c) == now + ttl.value as real
    ensures ttl.None? || ttl.value == 0 ==> Expiry(ttl, now, c) == now + c.defaultTtl as real
  {
  }

  /** The `max` most recently used entries. */
  function Trim<V>(s: seq<Entry<V>>, max: nat): seq<Entry<V>> {
    if |s| > max then s[|s| - max..] else s
  }

  /** What a read answers. */
  function Read<V>(s: seq<Entry<V>>, key: string, now: real): Option<V> {
    match Find(s, key)
    case None => None
    case Some(e) => if now > e.expiresAt then None else Some(e.value)
  }

  function Step<V>(s: seq<Entry<V>>, op: Op<V>, c: Config): seq<Entry<V>> {
    match op
    case Get(key, now) =>
      (match Find(s, key)
       case None => s
       case Some(e) => Filter(s, Except(key)) + if now > e.expiresAt then [] else [e])
    case Set(key, value, ttl, now) =>
      Trim(Filter(s, Except(key)) + [Entry(key, Expiry(ttl, now, c), value)], c.maxSize)
    case Invalidate(prefix) => Filter(s, Outside(prefix))
  }

  function Run<V>(ops: seq<Op<V>>, c: Config): seq<Entry<V>> {
    if ops == [] then [] else Step(Run(Init(ops), c), Last(ops), c)
  }

  lemma RunNext<V>(ops: seq<Op<V>>, op: Op<V>, c: Config)
    ensures Run(ops + [op], c) == Step(Run(ops, c), op, c)
  {
  }

  // ---- Filtering and lookup

  lemma {:induction false} FilterElements<V>(s: seq<Entry<V>>, k: Keep)
    ensures |Filter(s, k)| <= |s|
    ensures forall e :: e in Filter(s, k) ==> e in s && Keeps(k, e.key)
    ensures forall e :: e in s && Keeps(k, e.key) ==> e in Filter(s, k)
  {
    if s != [] {
      FilterElements(s[1..], k);
      assert s == [s[0]] + s[1..];
    }
  }

  lemma FilterMembers<V>(s: seq<Entry<V>>, k: Keep)
    ensures |Filter(s, k)| <= |s|
    ensures forall e :: e in Filter(s, k) ==> e in s && Keeps(k, e.key)
    ensures forall e :: e in s && Keeps(k, e.key) ==> e in Filter(s, k)
    ensures forall i :: 0 <= i < |Filter(s, k)| ==> Filter(s, k)[i] in s && Keeps(k, Filter(s, k)[i].key)
    ensures DistinctKeys(s) ==> DistinctKeys(Filter(s, k))
  {
  }

  lemma {:induction false} FilterSplit<V>(a: seq<Entry<V>>, b: seq<Entry<V>>, k: Keep)
    ensures Filter(a + b, k) == Filter(a, k) + Filter(b, k)
  {
    if a == [] {
      assert a + b == b;
    } else {
      var fa, fb := Filter(a[1..], k), Filter(b, k);
      FilterSplit(a[1..], b, k);
      assert (a + b)[0] == a[0] && (a + b)[1..] == a[1..] + b;
      if Keeps(k, a[0].key) {
        Regroup([a[0]], fa, fb);
      }
    }
  }

  lemma FilterNext<V>(s: seq<Entry<V>>, i: nat, k: Keep)
    requires i < |s|
    ensures Filter(s[..i + 1], k) == Filter(s[..i], k) + if Keeps(k, s[i].key) then [s[i]] else []
  {
    assert s[..i + 1] == s[..i] + [s[i]];
    FilterSplit(s[..i], [s[i]], k);
  }

  lemma SliceAt<V>(head: seq<Entry<V>>, all: seq<Entry<V>>, i: nat)
    requires i < |all|
    ensures (head + all[i..])[..|head|] + (head + all[i..])[|head| + 1..] == head + all[i + 1..]
    ensures head + all[i..] == (head + [all[i]]) + all[i + 1..]
  {
  }

  lemma {:induction false} FilterNothing<V>(s: seq<Entry<V>>)
    ensures Filter(s, Outside("")) == []
  {
    if s != [] {
      FilterNothing(s[1..]);
    }
  }

  lemma {:induction false} FilterAll<V>(s: seq<Entry<V>>, k: Keep)
    requires forall i :: 0 <= i < |s| ==> Keeps(k, s[i].key)
    ensures Filter(s, k) == s
  {
    if s != [] {
      FilterAll(s[1..], k);
    }
  }

  lemma {:induction false} FindMember<V>(s: seq<Entry<V>>, key: string)
    ensures Find(s, key).Some? ==> Find(s, key).value in s && Find(s, key).value.key == key
    ensures Find(s, key).None? ==> forall e :: e in s ==> e.key != key
    ensures DistinctKeys(s) ==> forall e :: e in s && e.key == key ==> Find(s, key) == Some(e)
  {
    if s != [] {
      FindMember(s[1..], key);
      assert s == [s[0]] + s[1..];
    }
  }

  lemma FilterAround<V>(s: seq<Entry<V>>, i: nat, k: Keep)
    requires i < |s|
    ensures Filter(s, k) == Filter(s[..i], k) + ((if Keeps(k, s[i].key) then [s[i]] else []) + Filter(s[i + 1..], k))
  {
    var tail := s[i..];
    assert s == s[..i] + tail && tail[0] == s[i] && tail[1..] == s[i + 1..];
    FilterSplit(s[..i], tail, k);
  }

  lemma {:induction false} RemoveAt<V>(s: seq<Entry<V>>, i: nat)
    requires i < |s| && DistinctKeys(s)
    ensures Filter(s, Except(s[i].key)) == s[..i] + s[i + 1..]
  {
    var k := Except(s[i].key);
    if i == 0 {
      FilterAll(s[1..], k);
    } else {
      RemoveAt(s[1..], i - 1);
      assert s[1..][i - 1] == s[i] && s[1..][..i - 1] == s[1..i] && s[1..][i..] == s[i + 1..];
      assert s[..i] == [s[0]] + s[1..i];
      Regroup([s[0]], s[1..i], s[i + 1..]);
    }
  }

  // ---- Size and key uniqueness over every run

  lemma {:induction false} RunSound<V>(ops: seq<Op<V>>, c: Config)
    ensures DistinctKeys(Run(ops, c))
    ensures |Run(ops, c)| <= c.maxSize
  {
    if ops != [] {
      RunSound(Init(ops), c);
      StepSound(Run(Init(ops), c), Last(ops), c);
    }
  }

  lemma StepSound<V>(s: seq<Entry<V>>, op: Op<V>, c: Config)
    requires DistinctKeys(s) && |s| <= c.maxSize
    ensures DistinctKeys(Step(s, op, c)) && |Step(s, op, c)| <= c.maxSize
  {
    match op
    case Get(key, _) =>
      FilterMembers(s, Except(key));
      FindMember(s, key);
      if Find(s, key).Some? {
        FilterShrinks(s, key);
      }
    case Set(key, value, ttl, now) =>
      FilterMembers(s, Except(key));
      var kept, e := Filter(s, Except(key)), Entry(key, Expiry(ttl, now, c), value);
      forall i | 0 <= i < |kept| ensures kept[i].key != key {
        assert kept[i] in kept;
      }
      assert DistinctKeys(kept + [e]);
    case Invalidate(prefix) =>
      FilterMembers(s, Outside(prefix));
  }

  lemma FilterShrinks<V>(s: seq<Entry<V>>, key: string)
    requires DistinctKeys(s)
    ensures |Filter(s, Except(key))| == |s| - (if Find(s, key).Some? then 1 else 0)
  {
    FindMember(s, key);
    if e: Entry<V> :| e in s && e.key == key {
      var i :| 0 <= i < |s| && s[i] == e;
      RemoveAt(s, i);
    } else {
      FilterAll(s, Except(key));
    }
  }

  // ---- Inclusion: a larger cache never misses where a smaller one hits

  ghost predicate Subseq<V>(s: seq<Entry<V>>, l: seq<Entry<V>>) {
    s == [] || (l != [] && ((s[0] == l[0] && Subseq(s[1..], l[1..])) || Subseq(s, l[1..])))
  }

  lemma {:induction false} SubseqMembers<V>(s: seq<Entry<V>>, l: seq<Entry<V>>)
    requires Subseq(s, l)
    ensures |s| <= |l|
    ensures forall e :: e in s ==> e in l
  {
    if s != [] {
      if s[0] == l[0] && Subseq(s[1..], l[1..]) {
        SubseqMembers(s[1..], l[1..]);
        assert s == [s[0]] + s[1..];
      } else {
        SubseqMembers(s, l[1..]);
      }
    }
  }

  lemma {:induction false} SubseqAppend<V>(s: seq<Entry<V>>, l: seq<Entry<V>>, e: Entry<V>)
    requires Subseq(s, l)
    ensures Subseq(s + [e], l + [e])
    ensures Subseq(s, l + [e])
  {
    if l == [] {
      assert s + [e] == [e] && l + [e] == [e];
      assert (s + [e])[1..] == [] && Subseq((s + [e])[1..], (l + [e])[1..]);
    } else if s != [] && s[0] == l[0] && Subseq(s[1..], l[1..]) {
      SubseqAppend(s[1..], l[1..], e);
      assert (s + [e])[1..] == s[1..] + [e] && (l + [e])[1..] == l[1..] + [e];
    } else {
      if s == [] {
        assert Subseq(s, l[1..]);
      }
      SubseqAppend(s, l[1..], e);
      assert (l + [e])[1..] == l[1..] + [e];
    }
  }

  lemma SubseqPush<V>(s: seq<Entry<V>>, l: seq<Entry<V>>, e: Entry<V>)
    requires Subseq(s, l)
    ensures Subseq([e] + s, [e] + l)
    ensures Subseq(s, [e] + l)
  {
  }

  lemma {:induction false} SubseqFilter<V>(s: seq<Entry<V>>, l: seq<Entry<V>>, k: Keep)
    requires Subseq(s, l)
    ensures Subseq(Filter(s, k), Filter(l, k))
    ensures |Filter(l, k)| - |Filter(s, k)| <= |l| - |s|
  {
    if s == [] {
      FilterMembers(l, k);
    } else if s[0] == l[0] && Subseq(s[1..], l[1..]) {
      SubseqFilter(s[1..], l[1..], k);
      if Keeps(k, s[0].key) {
        SubseqPush(Filter(s[1..], k), Filter(l[1..], k), s[0]);
      } else {
        assert Filter(s, k) == Filter(s[1..], k) && Filter(l, k) == Filter(l[1..], k);
      }
    } else {
      SubseqFilter(s, l[1..], k);
      if Keeps(k, l[0].key) {
        SubseqPush(Filter(s, k), Filter(l[1..], k), l[0]);
      } else {
        assert Filter(l, k) == Filter(l[1..], k);
      }
    }
  }

  lemma SubseqTrim<V>(s: seq<Entry<V>>, l: seq<Entry<V>>, n: nat, m: nat)
    requires Subseq(s, l) && |s| <= n + 1 && |l| <= m + 1
    requires |l| > m ==> |s| > n
    ensures Subseq(Trim(s, n), Trim(l, m))
  {
  }

  ghost predicate Includes<V>(s: seq<Entry<V>>, l: seq<Entry<V>>, n: nat, m: nat) {
    && DistinctKeys(s) && DistinctKeys(l)
    && |s| <= n && |l| <= m
    && Subseq(s, l)
    && |l| - |s| <= m - n
  }

  lemma InclusionGet<V>(s: seq<Entry<V>>, l: seq<Entry<V>>, key: string, now: real, c: Config, n: nat, m: nat)
    requires Includes(s, l, n, m)
    ensures Subseq(Step(s, Get(key, now), c), Step(l, Get(key, now), c))
    ensures |Step(l, Get(key, now), c)| - |Step(s, Get(key, now), c)| <= m - n
  {
    SubseqFilter(s, l, Except(key));
    FilterShrinks(s, key);
    FilterShrinks(l, key);
    FindMember(s, key);
    FindMember(l, key);
    SubseqMembers(s, l);
    var s', l' := Filter(s, Except(key)), Filter(l, Except(key));
    assert s' + [] == s' && l' + [] == l';
    if Find(s, key).Some? {
      assert Find(l, key) == Find(s, key);
      SubseqAppend(s', l', Find(s, key).value);
    } else if Find(l, key).Some? {
      FilterAll(s, Except(key));
      SubseqAppend(s', l', Find(l, key).value);
    }
  }

  lemma InclusionSet<V>(s: seq<Entry<V>>, l: seq<Entry<V>>, e: Entry<V>, n: nat, m: nat)
    requires Includes(s, l, n, m)
    ensures var s', l' := Trim(Filter(s, Except(e.key)) + [e], n), Trim(Filter(l, Except(e.key)) + [e], m);
            Subseq(s', l') && |l'| - |s'| <= m - n
  {
    SubseqFilter(s, l, Except(e.key));
    FilterShrinks(s, e.key);
    FilterShrinks(l, e.key);
    FindMember(s, e.key);
    FindMember(l, e.key);
    SubseqMembers(s, l);
    SubseqAppend(Filter(s, Except(e.key)), Filter(l, Except(e.key)), e);
    SubseqTrim(Filter(s, Except(e.key)) + [e], Filter(l, Except(e.key)) + [e], n, m);
  }

  lemma InclusionStep<V>(s: seq<Entry<V>>, l: seq<Entry<V>>, op: Op<V>, small: Config, large: Config)
    requires small.maxSize <= large.maxSize && small.defaultTtl == large.defaultTtl
    requires Includes(s, l, small.maxSize, large.maxSize)
    ensures Includes(Step(s, op, small), Step(l, op, large), small.maxSize, large.maxSize)
  {
    StepSound(s, op, small);
    StepSound(l, op, large);
    match op
    case Get(key, now) => InclusionGet(s, l, key, now, small, small.maxSize, large.maxSize);
    case Set(key, value, ttl, now) =>
      var e := Entry(key, Expiry(ttl, now, small), value);
      assert e.expiresAt == Expiry(ttl, now, large);
      InclusionSet(s, l, e, small.maxSize, large.maxSize);
    case Invalidate(prefix) => SubseqFilter(s, l, Outside(prefix));
  }

  /** Inclusion over every run: fed the same operations at the same clock readings, the smaller
      cache is a subsequence of the larger one, entries and order included, and lags it by at most
      the difference of the caps. So every hit of the smaller is the same hit in the larger. */
  lemma {:induction false} Inclusion<V>(ops: seq<Op<V>>, small: Config, large: Config)
    requires small.maxSize <= large.maxSize && small.defaultTtl == large.defaultTtl
    ensures Includes(Run(ops, small), Run(ops, large), small.maxSize, large.maxSize)
    ensures forall key, now ::
              Read(Run(ops, small), key, now).Some? ==>
                Read(Run(ops, large), key, now) == Read(Run(ops, small), key, now)
  {
    if ops != [] {
      Inclusion(Init(ops), small, large);
      InclusionStep(Run(Init(ops), small), Run(Init(ops), large), Last(ops), small, large);
    }
    var s, l := Run(ops, small), Run(ops, large);
    SubseqMembers(s, l);
    forall key, now | Read(s, key, now).Some? ensures Read(l, key, now) == Read(s, key, now) {
      FindMember(s, key);
      FindMember(l, key);
    }
  }

  // ---- Agreement with the history: a hit is the last write

  /** The entry an unbounded cache that never forgets would hold for `key`: the last write to it
      that no later invalidation covers. */
  function LastWrite<V>(ops: seq<Op<V>>, c: Config, key: string): Option<Entry<V>> {
    if ops == [] then None
    else
      match Last(ops)
      case Set(k, value, ttl, now) =>
        if k == key then Some(Entry(key, Expiry(ttl, now, c), value)) else LastWrite(Init(ops), c, key)
      case Invalidate(prefix) => if prefix <= key then None else LastWrite(Init(ops), c, key)
      case Get(_, _) => LastWrite(Init(ops), c, key)
  }

  lemma {:induction false} EntriesAreLastWrites<V>(ops: seq<Op<V>>, c: Config, e: Entry<V>)
    requires e in Run(ops, c)
    ensures LastWrite(ops, c, e.key) == Some(e)
  {
    var prev := Run(Init(ops), c);
    match Last(ops)
    case Get(key, _) =>
      FindMember(prev, key);
      FilterMembers(prev, Except(key));
      EntriesAreLastWrites(Init(ops), c, e);
    case Set(key, value, ttl, now) =>
      FilterMembers(prev, Except(key));
      if e.key != key {
        EntriesAreLastWrites(Init(ops), c, e);
      }
    case Invalidate(prefix) =>
      FilterMembers(prev, Outside(prefix));
      EntriesAreLastWrites(Init(ops), c, e);
  }

  /** A hit is what the unbounded TTL map holds, still in date; never a stale or foreign value. */
  lemma HitIsLastWrite<V>(ops: seq<Op<V>>, c: Config, key: string, now: real)
    ensures Read(Run(ops, c), key, now).Some? ==>
              && LastWrite(ops, c, key).Some?
              && now <= LastWrite(ops, c, key).value.expiresAt
              && Read(Run(ops, c), key, now) == Some(LastWrite(ops, c, key).value.value)
  {
    FindMember(Run(ops, c), key);
    if Find(Run(ops, c), key).Some? {
      EntriesAreLastWrites(ops, c, Find(Run(ops, c), key).value);
    }
  }

  // ---- Recency: the store order is the last-touch order

  /** The position of the last operation that touched `key`: a write, or a read that hit. */
  function LastTouch<V>(ops: seq<Op<V>>, c: Config, key: string): int {
    if ops == [] then -1
    else
      var op := Last(ops);
      if (op.Set? && op.key == key) || (op.Get? && op.key == key && Read(Run(Init(ops), c), key, op.now).Some?)
      then |ops| - 1
      else LastTouch(Init(ops), c, key)
  }

  lemma {:induction false} LastTouchBounded<V>(ops: seq<Op<V>>, c: Config, key: string)
    ensures LastTouch(ops, c, key) < |ops|
  {
    if ops != [] {
      LastTouchBounded(Init(ops), c, key);
    }
  }

  ghost predicate InTouchOrder<V>(s: seq<Entry<V>>, ops: seq<Op<V>>, c: Config) {
    forall i, j :: 0 <= i < j < |s| ==> LastTouch(ops, c, s[i].key) < LastTouch(ops, c, s[j].key)
  }

  lemma {:induction false} FilterInOrder<V>(s: seq<Entry<V>>, k: Keep, ops: seq<Op<V>>, c: Config)
    requires InTouchOrder(s, ops, c)
    ensures InTouchOrder(Filter(s, k), ops, c)
  {
    if s != [] {
      FilterInOrder(s[1..], k, ops, c);
      FilterElements(s[1..], k);
      var t := Filter(s[1..], k);
      forall i | 0 <= i < |t| ensures LastTouch(ops, c, s[0].key) < LastTouch(ops, c, t[i].key) {
        assert t[i] in t && t[i] in s[1..];
        var j :| 0 <= j < |s[1..]| && s[1..][j] == t[i];
        assert s[j + 1] == t[i];
      }
    }
  }

  lemma KeptInOrder<V>(past: seq<Op<V>>, op: Op<V>, k: Keep, c: Config)
    requires k == if op.Invalidate? then Outside(op.prefix) else Except(op.key)
    requires InTouchOrder(Run(past, c), past, c)
    ensures InTouchOrder(Filter(Run(past, c), k), past + [op], c)
    ensures forall e :: e in Filter(Run(past, c), k) ==> LastTouch(past + [op], c, e.key) < |past|
  {
    var kept, ops := Filter(Run(past, c), k), past + [op];
    assert Init(ops) == past && Last(ops) == op;
    FilterMembers(Run(past, c), k);
    FilterInOrder(Run(past, c), k, past, c);
    forall i | 0 <= i < |kept|
      ensures LastTouch(ops, c, kept[i].key) == LastTouch(past, c, kept[i].key) < |past|
    {
      assert kept[i] in kept;
      FindMember(Run(past, c), kept[i].key);
      LastTouchBounded(past, c, kept[i].key);
    }
  }

  lemma PushInOrder<V>(kept: seq<Entry<V>>, e: Entry<V>, ops: seq<Op<V>>, c: Config, max: nat)
    requires InTouchOrder(kept, ops, c)
    requires forall i :: 0 <= i < |kept| ==> LastTouch(ops, c, kept[i].key) < LastTouch(ops, c, e.key)
    ensures InTouchOrder(kept + [e], ops, c) && InTouchOrder(Trim(kept + [e], max), ops, c)
  {
  }

  /** Exact LRU: from front to back the store is ordered by last touch, so the entry an overflowing
      write evicts is the least recently touched one. */
  lemma {:induction false} OrderIsLastTouch<V>(ops: seq<Op<V>>, c: Config)
    ensures InTouchOrder(Run(ops, c), ops, c)
  {
    if ops != [] {
      var past, op := Init(ops), Last(ops);
      var prev := Run(past, c);
      var k := if op.Invalidate? then Outside(op.prefix) else Except(op.key);
      OrderIsLastTouch(past, c);
      assert ops == past + [op];
      KeptInOrder(past, op, k, c);
      var kept := Filter(prev, k);
      assert forall i :: 0 <= i < |kept| ==> kept[i] in kept;
      if op.Get? {
        FindMember(prev, op.key);
        if Find(prev, op.key).None? {
          FilterAll(prev, k);
        } else if op.now <= Find(prev, op.key).value.expiresAt {
          var e := Find(prev, op.key).value;
          assert LastTouch(ops, c, e.key) == |past|;
          PushInOrder(kept, e, ops, c, c.maxSize);
        }
      } else if op.Set? {
        var e := Entry(op.key, Expiry(op.ttl, op.now, c), op.value);
        assert LastTouch(ops, c, e.key) == |past|;
        PushInOrder(kept, e, ops, c, c.maxSize);
      }
    }
  }

  // ---- Retention: recently touched entries survive

  function RunFrom<V>(s: seq<Entry<V>>, ops: seq<Op<V>>, c: Config): seq<Entry<V>> {
    if ops == [] then s else Step(RunFrom(s, Init(ops), c), Last(ops), c)
  }

  /** Whether an operation touches its key: a write, or a read that hits. */
  predicate Touches<V>(s: seq<Entry<V>>, op: Op<V>) {
    op.Set? || (op.Get? && Read(s, op.key, op.now).Some?)
  }

  /** The keys other than `key` that `ops` touches, starting from the store `s`. */
  function Touched<V>(s: seq<Entry<V>>, ops: seq<Op<V>>, key: string, c: Config): set<string> {
    if ops == [] then {}
    else
      Touched(s, Init(ops), key, c)
      + (if Touches(RunFrom(s, Init(ops), c), Last(ops)) && Last(ops).key != key then {Last(ops).key} else {})
  }

  /** No operation of `ops` writes, invalidates, reads or expires `key`. */
  ghost predicate Untouched<V>(ops: seq<Op<V>>, key: string) {
    forall op :: op in ops ==> if op.Invalidate? then !(op.prefix <= key) else op.key != key
  }

  ghost predicate HeldWithin<V>(s: seq<Entry<V>>, e: Entry<V>, recent: set<string>) {
    exists i :: 0 <= i < |s| && s[i] == e && KeysOf(s[i + 1..]) <= recent
  }

  function KeysOf<V>(s: seq<Entry<V>>): set<string> {
    set i | 0 <= i < |s| :: s[i].key
  }

  lemma {:induction false} KeysOfSize<V>(s: seq<Entry<V>>)
    ensures |KeysOf(s)| <= |s|
    ensures DistinctKeys(s) ==> |KeysOf(s)| == |s|
  {
    if s != [] {
      KeysOfSize(s[1..]);
      assert KeysOf(s) == {s[0].key} + KeysOf(s[1..]) by {
        assert s == [s[0]] + s[1..];
        forall key | key in KeysOf(s) ensures key in {s[0].key} + KeysOf(s[1..]) {
          var i :| 0 <= i < |s| && s[i].key == key;
          assert i > 0 ==> s[1..][i - 1].key == key;
        }
      }
    }
  }

  lemma FilterHeld<V>(s: seq<Entry<V>>, i: nat, k: Keep) returns (at: nat)
    requires i < |s| && Keeps(k, s[i].key)
    ensures at < |Filter(s, k)| && Filter(s, k)[at] == s[i]
    ensures Filter(s, k)[at + 1..] == Filter(s[i + 1..], k)
    ensures KeysOf(Filter(s, k)[at + 1..]) <= KeysOf(s[i + 1..])
  {
    FilterAround(s, i, k);
    at := |Filter(s[..i], k)|;
    var t := Filter(s[i + 1..], k);
    FilterMembers(s[i + 1..], k);
    forall j | 0 <= j < |t| ensures t[j].key in KeysOf(s[i + 1..]) {
      assert t[j] in t;
    }
  }

  lemma AppendHeld<V>(s: seq<Entry<V>>, i: nat, x: Entry<V>)
    requires i < |s|
    ensures (s + [x])[i] == s[i]
    ensures KeysOf((s + [x])[i + 1..]) == KeysOf(s[i + 1..]) + {x.key}
  {
    var t := s[i + 1..];
    assert (s + [x])[i + 1..] == t + [x];
    assert (t + [x])[|t|].key == x.key;
    forall key | key in KeysOf(t) ensures key in KeysOf(t + [x]) {
      var j :| 0 <= j < |t| && t[j].key == key;
      assert (t + [x])[j].key == key;
    }
  }

  lemma TrimHeld<V>(s: seq<Entry<V>>, i: nat, max: nat) returns (at: nat)
    requires i < |s| && |s| - i <= max
    ensures at < |Trim(s, max)| && Trim(s, max)[at] == s[i] && Trim(s, max)[at + 1..] == s[i + 1..]
  {
    at := i - (|s| - |Trim(s, max)|);
  }

  lemma HeldAfterGet<V>(s: seq<Entry<V>>, e: Entry<V>, key: string, now: real, recent: set<string>, c: Config)
    requires HeldWithin(s, e, recent) && key != e.key
    ensures HeldWithin(Step(s, Get(key, now), c), e, recent + if Touches(s, Op<V>.Get(key, now)) then {key} else {})
  {
    var i :| 0 <= i < |s| && s[i] == e && KeysOf(s[i + 1..]) <= recent;
    var at := FilterHeld(s, i, Except(key));
    var kept := Filter(s, Except(key));
    FindMember(s, key);
    if Find(s, key).Some? {
      AppendHeld(kept, at, Find(s, key).value);
      assert kept + [] == kept;
    }
  }

  lemma HeldAfterSet<V>(s: seq<Entry<V>>, e: Entry<V>, x: Entry<V>, recent: set<string>, max: nat)
    requires DistinctKeys(s) && HeldWithin(s, e, recent) && x.key != e.key && |recent + {x.key}| < max
    ensures HeldWithin(Trim(Filter(s, Except(x.key)) + [x], max), e, recent + {x.key})
  {
    var i :| 0 <= i < |s| && s[i] == e && KeysOf(s[i + 1..]) <= recent;
    var at := FilterHeld(s, i, Except(x.key));
    var kept := Filter(s, Except(x.key));
    AppendHeld(kept, at, x);
    FilterMembers(s, Except(x.key));
    AppendDistinct(kept, x);
    KeysOfSize((kept + [x])[at + 1..]);
    SubsetSize(KeysOf((kept + [x])[at + 1..]), recent + {x.key});
    var _ := TrimHeld(kept + [x], at, max);
  }

  lemma AppendDistinct<V>(kept: seq<Entry<V>>, x: Entry<V>)
    requires DistinctKeys(kept) && forall e :: e in kept ==> e.key != x.key
    ensures DistinctKeys(kept + [x])
  {
  }

  lemma RetentionStep<V>(s: seq<Entry<V>>, e: Entry<V>, op: Op<V>, recent: set<string>, c: Config)
    requires DistinctKeys(s) && |s| <= c.maxSize && HeldWithin(s, e, recent)
    requires if op.Invalidate? then !(op.prefix <= e.key) else op.key != e.key
    requires Touches(s, op) ==> |recent + {op.key}| < c.maxSize
    ensures HeldWithin(Step(s, op, c), e, recent + if Touches(s, op) then {op.key} else {})
  {
    match op
    case Get(key, now) => HeldAfterGet(s, e, key, now, recent, c);
    case Set(key, value, ttl, now) => HeldAfterSet(s, e, Entry(key, Expiry(ttl, now, c), value), recent, c.maxSize);
    case Invalidate(prefix) =>
      var i :| 0 <= i < |s| && s[i] == e && KeysOf(s[i + 1..]) <= recent;
      var at := FilterHeld(s, i, Outside(prefix));
  }

  /** A just-touched entry (the last of the store) is still there after `later`, however long, as
      long as `later` leaves its key alone and touches fewer than `maxSize` other keys. */
  lemma {:induction false} Retention<V>(s: seq<Entry<V>>, later: seq<Op<V>>, c: Config)
    requires s != [] && DistinctKeys(s) && |s| <= c.maxSize
    requires Untouched(later, Last(s).key)
    requires |Touched(s, later, Last(s).key, c)| < c.maxSize
    ensures HeldWithin(RunFrom(s, later, c), Last(s), Touched(s, later, Last(s).key, c))
    ensures DistinctKeys(RunFrom(s, later, c)) && |RunFrom(s, later, c)| <= c.maxSize
    ensures forall now :: now <= Last(s).expiresAt ==>
              Read(RunFrom(s, later, c), Last(s).key, now) == Some(Last(s).value)
  {
    var e := Last(s);
    if later == [] {
      assert s[|s| - 1] == e;
    } else {
      var before, op := Init(later), Last(later);
      assert Touched(s, before, e.key, c) <= Touched(s, later, e.key, c);
      SubsetSize(Touched(s, before, e.key, c), Touched(s, later, e.key, c));
      assert forall o :: o in before ==> o in later;
      Retention(s, before, c);
      assert op in later;
      RetentionStep(RunFrom(s, before, c), e, op, Touched(s, before, e.key, c), c);
      StepSound(RunFrom(s, before, c), op, c);
    }
    FindMember(RunFrom(s, later, c), e.key);
  }

  lemma {:induction false} RunAppend<V>(a: seq<Op<V>>, b: seq<Op<V>>, c: Config)
    ensures Run(a + b, c) == RunFrom(Run(a, c), b, c)
  {
    if b == [] {
      assert a + b == a;
    } else {
      RunAppend(a, Init(b), c);
      assert Init(a + b) == a + Init(b);
    }
  }

  ghost predicate CrowdedBy<V>(s: seq<Entry<V>>, e: Entry<V>, names: set<string>) {
    exists i :: 0 <= i < |s| && s[i] == e && names <= KeysOf(s[i + 1..])
  }

  lemma FilterCrowded<V>(s: seq<Entry<V>>, i: nat, key: string, names: set<string>) returns (at: nat)
    requires i < |s| && s[i].key != key && names <= KeysOf(s[i + 1..])
    ensures at < |Filter(s, Except(key))| && Filter(s, Except(key))[at] == s[i]
    ensures names - {key} <= KeysOf(Filter(s, Except(key))[at + 1..])
  {
    at := FilterHeld(s, i, Except(key));
    var t := Filter(s[i + 1..], Except(key));
    FilterMembers(s[i + 1..], Except(key));
    forall name | name in names - {key} ensures name in KeysOf(t) {
      var m :| 0 <= m < |s[i + 1..]| && s[i + 1..][m].key == name;
      assert s[i + 1..][m] in t;
    }
  }

  lemma TrimmedSuffix<V>(s: seq<Entry<V>>, max: nat, e: Entry<V>, at: nat) returns (j: nat)
    requires DistinctKeys(s) && at < |s| && s[at] == e && e in Trim(s, max)
    ensures j < |Trim(s, max)| && Trim(s, max)[j] == e && Trim(s, max)[j + 1..] == s[at + 1..]
  {
    var t := Trim(s, max);
    var cut := |s| - |t|;
    assert t == s[cut..];
    j :| 0 <= j < |t| && t[j] == e;
    assert s[cut + j].key == s[at].key;
    assert cut + j == at;
  }

  lemma CrowdedStep<V>(s: seq<Entry<V>>, e: Entry<V>, x: Entry<V>, names: set<string>, max: nat)
    requires DistinctKeys(s) && x.key != e.key
    requires e in s ==> CrowdedBy(s, e, names)
    ensures var next := Trim(Filter(s, Except(x.key)) + [x], max);
            e in next ==> CrowdedBy(next, e, names + {x.key})
  {
    var kept := Filter(s, Except(x.key));
    FilterMembers(s, Except(x.key));
    AppendDistinct(kept, x);
    var next := Trim(kept + [x], max);
    if e in next {
      assert e in kept;
      var i :| 0 <= i < |s| && s[i] == e && names <= KeysOf(s[i + 1..]);
      var at := FilterCrowded(s, i, x.key, names);
      AppendHeld(kept, at, x);
      var j := TrimmedSuffix(kept + [x], max, e, at);
    }
  }

  /** Nothing is invalidated, and no read finds an expired entry: evictions are the only losses. */
  ghost predicate OnlyEvicts<V>(s: seq<Entry<V>>, ops: seq<Op<V>>, c: Config) {
    ops == [] ||
    (OnlyEvicts(s, Init(ops), c) && DropsNothing(RunFrom(s, Init(ops), c), Last(ops)))
  }

  predicate DropsNothing<V>(s: seq<Entry<V>>, op: Op<V>) {
    !op.Invalidate? && (op.Get? && Find(s, op.key).Some? ==> Touches(s, op))
  }

  lemma CrowdedAfter<V>(s: seq<Entry<V>>, e: Entry<V>, op: Op<V>, names: set<string>, c: Config)
    requires DistinctKeys(s) && |s| <= c.maxSize && DropsNothing(s, op) && op.key != e.key
    requires e in s ==> CrowdedBy(s, e, names)
    ensures e in Step(s, op, c) ==> CrowdedBy(Step(s, op, c), e, names + if Touches(s, op) then {op.key} else {})
  {
    if op.Set? {
      CrowdedStep(s, e, Entry(op.key, Expiry(op.ttl, op.now, c), op.value), names, c.maxSize);
    } else if Touches(s, op) {
      FindMember(s, op.key);
      FilterShrinks(s, op.key);
      CrowdedStep(s, e, Find(s, op.key).value, names, c.maxSize);
    } else {
      assert names + {} == names;
    }
  }

  /** The other half of retention: while evictions are the only losses, every other key touched since
      stands behind the entry, as long as the entry is there. */
  lemma {:induction false} CrowdedOut<V>(s: seq<Entry<V>>, later: seq<Op<V>>, c: Config)
    requires s != [] && DistinctKeys(s) && |s| <= c.maxSize
    requires Untouched(later, Last(s).key) && OnlyEvicts(s, later, c)
    ensures DistinctKeys(RunFrom(s, later, c)) && |RunFrom(s, later, c)| <= c.maxSize
    ensures forall x :: x in RunFrom(s, later, c) && x.key == Last(s).key ==> x == Last(s)
    ensures Last(s) in RunFrom(s, later, c) ==>
              CrowdedBy(RunFrom(s, later, c), Last(s), Touched(s, later, Last(s).key, c))
  {
    var e := Last(s);
    if later == [] {
      assert s[|s| - 1] == e;
    } else {
      var before, op := Init(later), Last(later);
      assert op in later && forall o :: o in before ==> o in later;
      CrowdedOut(s, before, c);
      StepSound(RunFrom(s, before, c), op, c);
      CrowdedAfter(RunFrom(s, before, c), e, op, Touched(s, before, e.key, c), c);
      FilterMembers(RunFrom(s, before, c), Except(op.key));
      FindMember(RunFrom(s, before, c), op.key);
    }
  }

  /** A written key, left alone since, reads back its value exactly until it expires, whatever the
      history before it, as long as fewer than `maxSize` other keys were touched since. */
  lemma RecentWriteSurvives<V>(past: seq<Op<V>>, write: Op<V>, later: seq<Op<V>>, c: Config, now: real)
    requires write.Set? && Untouched(later, write.key)
    requires |Touched(Run(past + [write], c), later, write.key, c)| < c.maxSize
    ensures Read(Run(past + [write] + later, c), write.key, now) ==
            if now <= Expiry(write.ttl, write.now, c) then Some(write.value) else None
  {
    var s := WrittenLast(past, write, c);
    RunAppend(past + [write], later, c);
    Retention(s, later, c);
    FindMember(RunFrom(s, later, c), write.key);
  }

  /** While evictions are the only losses the bound is exact: the key is evicted once `maxSize` other
      keys were touched, and not before. */
  lemma EvictedExactlyWhenCrowded<V>(past: seq<Op<V>>, write: Op<V>, later: seq<Op<V>>, c: Config)
    requires write.Set? && Untouched(later, write.key) && c.maxSize > 0
    requires OnlyEvicts(Run(past + [write], c), later, c)
    ensures Find(Run(past + [write] + later, c), write.key).Some?
            <==> |Touched(Run(past + [write], c), later, write.key, c)| < c.maxSize
  {
    var s := WrittenLast(past, write, c);
    RunAppend(past + [write], later, c);
    var t, names := RunFrom(s, later, c), Touched(s, later, write.key, c);
    FindMember(t, write.key);
    if |names| < c.maxSize {
      Retention(s, later, c);
    } else if Find(t, write.key).Some? {
      CrowdedOut(s, later, c);
      assert Find(t, write.key).value in t;
      CrowdIsSmaller(t, Last(s), names);
      assert false;
    }
  }

  lemma CrowdIsSmaller<V>(t: seq<Entry<V>>, e: Entry<V>, names: set<string>)
    requires CrowdedBy(t, e, names)
    ensures |names| < |t|
  {
    var i :| 0 <= i < |t| && t[i] == e && names <= KeysOf(t[i + 1..]);
    SubsetSize(names, KeysOf(t[i + 1..]));
    KeysOfSize(t[i + 1..]);
  }

  /** Counting writes alone would not do: here one other key is written after `b`, fewer than the cap of
      two, and `b` is gone, because a read moved `a` behind it first. */
  lemma ReadsCrowdToo(a: string, b: string, x: string)
    requires a != b && b != x && x != a
    ensures var c := Config(60, 2);
            Run([Set(a, 1, None, 0.0), Set(b, 2, None, 1.0), Get(a, 2.0), Set(x, 3, None, 3.0)], c)
            == [Entry(a, 60.0, 1), Entry(x, 63.0, 3)]
  {
    var c := Config(60, 2);
    var setA: Op<int>, setB: Op<int>, getA: Op<int>, setX: Op<int> :=
      Set(a, 1, None, 0.0), Set(b, 2, None, 1.0), Get(a, 2.0), Set(x, 3, None, 3.0);
    var entryA, entryB, entryX := Entry(a, 60.0, 1), Entry(b, 61.0, 2), Entry(x, 63.0, 3);
    assert [setA] + [setB] == [setA, setB] && [setA, setB] + [getA] == [setA, setB, getA];
    assert [setA, setB, getA] + [setX] == [setA, setB, getA, setX];
    RunNext([], setA, c);
    RunNext([setA], setB, c);
    RunNext([setA, setB], getA, c);
    RunNext([setA, setB, getA], setX, c);
    SetRoom([], setA, c);
    SetRoom([entryA], setB, c);
    assert Run([setA], c) == [entryA] by { assert [] + [setA] == [setA]; }
    assert Run([setA, setB], c) == [entryA, entryB] && [entryA, entryB][1..] == [entryB];
    GetOldest([entryA, entryB], 2.0, c);
    assert Run([setA, setB, getA], c) == [entryB, entryA];
    FilterAll([entryB, entryA], Except(x));
    assert ([entryB, entryA] + [entryX])[1..] == [entryA, entryX];
  }

  lemma GetOldest<V>(s: seq<Entry<V>>, now: real, c: Config)
    requires s != [] && DistinctKeys(s) && now <= s[0].expiresAt
    ensures Step(s, Get(s[0].key, now), c) == s[1..] + [s[0]]
  {
    RemoveAt(s, 0);
    assert s[..0] + s[1..] == s[1..];
  }

  lemma SetRoom<V>(s: seq<Entry<V>>, write: Op<V>, c: Config)
    requires write.Set? && |s| < c.maxSize && forall i :: 0 <= i < |s| ==> s[i].key != write.key
    ensures Step(s, write, c) == s + [Entry(write.key, Expiry(write.ttl, write.now, c), write.value)]
  {
    FilterAll(s, Except(write.key));
  }

  lemma WrittenLast<V>(past: seq<Op<V>>, write: Op<V>, c: Config) returns (s: seq<Entry<V>>)
    requires write.Set? && c.maxSize > 0
    ensures s == Run(past + [write], c) && s != [] && DistinctKeys(s) && |s| <= c.maxSize
    ensures Last(s) == Entry(write.key, Expiry(write.ttl, write.now, c), write.value)
  {
    s := Run(past + [write], c);
    RunSound(past + [write], c);
    assert Init(past + [write]) == past && Last(past + [write]) == write;
  }
}
