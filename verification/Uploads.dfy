/** Chunked uploads (internal/biz/file.go): the plan, the parts and their assembly. */
module Uploads {
  import opened Ids

  const ALIGN := 262144
  const TWO_31 := 0x8000_0000
  const TWO_32 := 0x1_0000_0000
  const TWO_63 := 0x8000_0000_0000_0000
  const TWO_64 := 0x1_0000_0000_0000_0000

  /** The conversion to int32 keeps the low 32 bits. */
  function Int32(n: int): int {
    (n + TWO_31) % TWO_32 - TWO_31
  }

  /** The result of an int64 sum. */
  function Int64(n: int): int {
    (n + TWO_63) % TWO_64 - TWO_63
  }

  /** Division and remainder toward zero. */
  function Quot(a: int, b: int): int
    requires b > 0
  {
    if a >= 0 then a / b else -(-a / b)
  }

  function Rem(a: int, b: int): int
    requires b > 0
  {
    a - Quot(a, b) * b
  }

  datatype Limits = Limits(minChunk: int, maxChunk: int, defaultChunk: int, maxFile: int, maxInline: int, maxParts: int)

  datatype Plan = Plan(size: int, chunk: int, total: int)

  function Clamped(chunk: int, l: Limits): int {
    var raised := if chunk < l.minChunk then l.minChunk else chunk;
    if raised > l.maxChunk then l.maxChunk else raised
  }

  method NormalizeChunk(requested: int, l: Limits) returns (chunk: int)
    requires 0 < l.minChunk <= l.maxChunk
    ensures chunk % ALIGN == 0
    ensures Clamped(requested, l) <= chunk < Clamped(requested, l) + ALIGN
    ensures l.minChunk <= chunk < l.maxChunk + ALIGN
    ensures l.minChunk <= requested <= l.maxChunk ==> requested <= chunk < requested + ALIGN
    ensures requested < l.minChunk ==> chunk < l.minChunk + ALIGN
    ensures requested > l.maxChunk ==> l.maxChunk <= chunk
    ensures l.minChunk <= requested <= l.maxChunk && requested % ALIGN == 0 ==> chunk == requested
  {
    chunk := requested;
    if chunk < l.minChunk { chunk := l.minChunk; }
    if chunk > l.maxChunk { chunk := l.maxChunk; }
    var rem := Rem(chunk, ALIGN);
    if rem != 0 { chunk := chunk + ALIGN - rem; }
  }

  /** The part count as it is computed: an int64 sum, a division, a conversion to int32. */
  function PartCount(size: int, chunk: int): int
    requires chunk > 0
  {
    Int32(Quot(Int64(Int64(size + chunk) - 1), chunk))
  }

  /** The number of chunks that hold the size, the last one not empty. */
  predicate Fills(size: int, chunk: int, n: int) {
    (n - 1) * chunk < size <= n * chunk
  }

  lemma TimesKeepsOrder(a: int, b: int, c: int)
    requires a <= b && c > 0
    ensures a * c <= b * c
  {
    assert (b - a) * c >= 0;
  }

  function Ceiling(size: int, chunk: int): int
    requires chunk > 0
  {
    (size + chunk - 1) / chunk
  }

  lemma CeilingAtMostIff(size: int, chunk: int, n: int)
    requires chunk > 0
    ensures Ceiling(size, chunk) <= n <==> size <= n * chunk
  {
    var q, r := Ceiling(size, chunk), (size + chunk - 1) % chunk;
    assert size + chunk - 1 == q * chunk + r;
    if q <= n {
      TimesKeepsOrder(q, n, chunk);
    } else {
      TimesKeepsOrder(n + 1, q, chunk);
      assert (n + 1) * chunk == n * chunk + chunk;
    }
  }

  lemma FillsIffCeiling(size: int, chunk: int, n: int)
    requires chunk > 0
    ensures Fills(size, chunk, n) <==> n == Ceiling(size, chunk)
  {
    CeilingAtMostIff(size, chunk, n);
    CeilingAtMostIff(size, chunk, n - 1);
  }

  /** For any two positive int64 the part count is right exactly when the true count fits an int32 and the sum
      less one an int64. */
  lemma PartCountExactIff(size: int, chunk: int)
    requires 0 < size < TWO_63 && 0 < chunk < TWO_63
    ensures Fills(size, chunk, PartCount(size, chunk)) <==> size <= (TWO_31 - 1) * chunk && size + chunk <= TWO_63
  {
    var n := Ceiling(size, chunk);
    CeilingAtMostIff(size, chunk, TWO_31 - 1);
    CeilingAtMostIff(size, chunk, 0);
    FillsIffCeiling(size, chunk, PartCount(size, chunk));
    InRangeIff(n);
    if size + chunk <= TWO_63 {
      CountWithoutOverflow(size, chunk);
    } else if n < TWO_31 {
      OverflowIsNegative(size, chunk);
    }
  }

  lemma CountWithoutOverflow(size: int, chunk: int)
    requires 0 < size < TWO_63 && 0 < chunk < TWO_63 && size + chunk <= TWO_63
    ensures PartCount(size, chunk) == Int32(Ceiling(size, chunk))
  {
    assert Int64(Int64(size + chunk) - 1) == size + chunk - 1;
  }

  /** Where only the sum overflows, the count comes out negative or zero. */
  lemma OverflowIsNegative(size: int, chunk: int)
    requires 0 < size < TWO_63 && 0 < chunk < TWO_63 && size + chunk > TWO_63 && size <= (TWO_31 - 1) * chunk
    ensures PartCount(size, chunk) <= 0
  {
    var wrapped := size + chunk - 1 - TWO_64;
    assert Int64(Int64(size + chunk) - 1) == wrapped;
    var q := Quot(wrapped, chunk);
    assert q == -(-wrapped / chunk);
    assert TWO_31 * chunk > TWO_63;
    assert -wrapped <= TWO_63 < TWO_31 * chunk;
    QuotientBelow(-wrapped, chunk, TWO_31);
    InRangeIff(q);
  }

  lemma QuotientBelow(a: int, b: int, n: int)
    requires 0 <= a < n * b && b > 0
    ensures 0 <= a / b < n
  {
    var q, r := a / b, a % b;
    assert a == q * b + r;
    if q >= n { TimesKeepsOrder(n, q, b); }
  }

  lemma InRangeIff(n: int)
    ensures Int32(n) == n <==> -TWO_31 <= n < TWO_31
  {
  }

  /** Past that the count can turn negative and slip under the limit on parts: 2^31 aligned chunks. */
  lemma PartCountWraps()
    ensures PartCount(TWO_31 * ALIGN, ALIGN) == -TWO_31
  {
    assert Int64(Int64(TWO_31 * ALIGN + ALIGN) - 1) == TWO_31 * ALIGN + (ALIGN - 1);
    assert (TWO_31 * ALIGN + (ALIGN - 1)) / ALIGN == TWO_31;
  }

  /** The chunk sizes that normalizing may give: by the bounds there is exactly one. */
  predicate IsChunk(c: int, requested: int, l: Limits) {
    c % ALIGN == 0 && Clamped(requested, l) <= c < Clamped(requested, l) + ALIGN
  }

  /** The size passes the limits, with the chunk that the request normalizes to. */
  ghost predicate Plannable(size: int, requested: int, l: Limits)
    requires 0 < l.minChunk
  {
    && size >= 0 && (l.maxFile > 0 ==> size <= l.maxFile)
    && if size == 0 then 1 <= l.maxParts
       else forall c {:trigger PartCount(size, c)} | c > 0
           && IsChunk(c, if requested <= 0 then l.defaultChunk else requested, l) ::
              PartCount(size, c) <= l.maxParts
  }

  /** The planning part of InitiateUpload. */
  method PlanUpload(size: int, requested: int, l: Limits) returns (r: Result<Plan>)
    requires 0 < l.minChunk <= l.maxChunk
    ensures r.Ok? <==> Plannable(size, requested, l)
    ensures size < 0 ==> r == Err(InvalidArgument)
    ensures r.Ok? && size > 0 ==> IsChunk(r.value.chunk, if requested <= 0 then l.defaultChunk else requested, l)
                                  && r.value.total == PartCount(size, r.value.chunk)
    ensures r.Ok? ==> r.value.size == size >= 0 && (l.maxFile > 0 ==> size <= l.maxFile) && r.value.total <= l.maxParts
    ensures r.Ok? && size == 0 ==> r.value.chunk == l.minChunk && r.value.total == 1
    ensures r.Ok? && size > 0 ==> r.value.chunk % ALIGN == 0 && l.minChunk <= r.value.chunk < l.maxChunk + ALIGN
    ensures r.Ok? && 0 < size < TWO_63 && r.value.chunk < TWO_63 ==>
              (Fills(size, r.value.chunk, r.value.total) <==>
               size <= (TWO_31 - 1) * r.value.chunk && size + r.value.chunk <= TWO_63)
    ensures size >= 0 && r.Err? ==> r.error == TooLarge
  {
    if size < 0 { return Err(InvalidArgument); }
    if l.maxFile > 0 && size > l.maxFile { return Err(TooLarge); }
    var chunk := requested;
    if chunk <= 0 { chunk := l.defaultChunk; }
    ghost var asked := chunk;
    chunk := NormalizeChunk(chunk, l);
    assert forall c | IsChunk(c, asked, l) :: c == chunk;
    if size == 0 { chunk := l.minChunk; }
    var total := 1;
    if size > 0 {
      total := PartCount(size, chunk);
      if size < TWO_63 && chunk < TWO_63 { PartCountExactIff(size, chunk); }
    }
    if total > l.maxParts { return Err(TooLarge); }
    r := Ok(Plan(size, chunk, total));
  }

  // ---- Parts ----------------------------------------------------------------------------------

  datatype Part = Part(upload: Uuid, number: int, size: int, key: string)

  /** The listed parts with one number among the first `k`, in listing order, and their size. */
  function At(parts: seq<Part>, n: int, k: nat): seq<Part>
    requires k <= |parts|
  {
    if k == 0 then [] else At(parts, n, k - 1) + if parts[k - 1].number == n then [parts[k - 1]] else []
  }

  function SizeAt(parts: seq<Part>, n: int, k: nat): int
    requires k <= |parts|
  {
    if k == 0 then 0 else SizeAt(parts, n, k - 1) + if parts[k - 1].number == n then parts[k - 1].size else 0
  }

  predicate Present(parts: seq<Part>, n: int) {
    |At(parts, n, |parts|)| > 0
  }

  /** What the double loop of CompleteUpload collects for the numbers up to `n`. */
  function Collected(parts: seq<Part>, n: nat): seq<Part> {
    if n == 0 then [] else Collected(parts, n - 1) + At(parts, n, |parts|)
  }

  function CollectedSize(parts: seq<Part>, n: nat): int {
    if n == 0 then 0 else CollectedSize(parts, n - 1) + SizeAt(parts, n, |parts|)
  }

  /** How many of the first `k` listed parts have a number from one up to `n`. */
  function Low(parts: seq<Part>, n: nat, k: nat): nat
    requires k <= |parts|
  {
    if k == 0 then 0 else Low(parts, n, k - 1) + if 1 <= parts[k - 1].number <= n then 1 else 0
  }

  lemma {:induction false} LowSplits(parts: seq<Part>, n: nat, k: nat)
    requires n > 0 && k <= |parts|
    ensures Low(parts, n, k) == Low(parts, n - 1, k) + |At(parts, n, k)|
  {
    if k > 0 { LowSplits(parts, n, k - 1); }
  }

  lemma {:induction false} LowIsAllIff(parts: seq<Part>, n: nat, k: nat)
    requires k <= |parts|
    ensures Low(parts, n, k) <= k
    ensures Low(parts, n, k) == k <==> forall j | 0 <= j < k :: 1 <= parts[j].number <= n
  {
    if k > 0 { LowIsAllIff(parts, n, k - 1); }
  }

  lemma {:induction false} CollectedLength(parts: seq<Part>, n: nat)
    ensures |Collected(parts, n)| == Low(parts, n, |parts|)
  {
    if n > 0 {
      CollectedLength(parts, n - 1);
      LowSplits(parts, n, |parts|);
    } else {
      LowNothing(parts, |parts|);
    }
  }

  lemma {:induction false} LowNothing(parts: seq<Part>, k: nat)
    requires k <= |parts|
    ensures Low(parts, 0, k) == 0
  {
    if k > 0 { LowNothing(parts, k - 1); }
  }

  lemma {:induction false} AtHas(parts: seq<Part>, n: int, k: nat, j: nat)
    requires j < k <= |parts| && parts[j].number == n
    ensures |At(parts, n, k)| > 0 && parts[j] in At(parts, n, k)
    ensures forall i | 0 <= i < k && i != j && parts[i].number == n :: |At(parts, n, k)| > 1
  {
    if j < k - 1 {
      AtHas(parts, n, k - 1, j);
    } else if i :| 0 <= i < j && parts[i].number == n {
      AtHas(parts, n, k - 1, i);
    }
  }

  lemma {:induction false} SizeOfOne(parts: seq<Part>, n: int, k: nat)
    requires k <= |parts| && |At(parts, n, k)| <= 1
    ensures SizeAt(parts, n, k) == if |At(parts, n, k)| == 1 then At(parts, n, k)[0].size else 0
  {
    if k > 0 { SizeOfOne(parts, n, k - 1); }
  }

  lemma {:induction false} AtLeastOneEach(parts: seq<Part>, n: nat, total: nat)
    requires n <= total && forall i | 1 <= i <= total :: Present(parts, i)
    ensures Low(parts, n, |parts|) >= n
    ensures Low(parts, total, |parts|) - Low(parts, n, |parts|) >= total - n
    decreases total - n, n
  {
    if n < total {
      AtLeastOneEach(parts, n + 1, total);
      LowSplits(parts, n + 1, |parts|);
      assert Present(parts, n + 1);
    }
    AtLeast(parts, n);
  }

  lemma {:induction false} AtLeast(parts: seq<Part>, n: nat)
    requires forall i | 1 <= i <= n :: Present(parts, i)
    ensures Low(parts, n, |parts|) >= n
  {
    if n > 0 {
      AtLeast(parts, n - 1);
      LowSplits(parts, n, |parts|);
      assert Present(parts, n);
    }
  }

  /** As many listed parts as numbers, and every number found. */
  predicate AllNumbers(parts: seq<Part>, total: int) {
    |parts| == total && forall i | 1 <= i <= total :: Present(parts, i)
  }

  /** The pigeonhole, for one number: it is found once. The inner loop does not stop at its first
      hit, and need not. */
  lemma FoundOnce(parts: seq<Part>, total: nat, n: nat)
    requires AllNumbers(parts, total) && 1 <= n <= total
    ensures |At(parts, n, |parts|)| == 1 && SizeAt(parts, n, |parts|) == At(parts, n, |parts|)[0].size
    ensures Low(parts, n, |parts|) == n
  {
    AtLeastOneEach(parts, n, total);
    AtLeastOneEach(parts, n - 1, total);
    LowSplits(parts, n, |parts|);
    LowIsAllIff(parts, total, |parts|);
    SizeOfOne(parts, n, |parts|);
  }

  /** So the parts and the numbers match one to one, and the collected list holds the part with number
      `i` at position `i`, for every `i`. */
  lemma CollectedOnce(parts: seq<Part>, total: nat)
    requires AllNumbers(parts, total)
    ensures |Collected(parts, total)| == total
    ensures forall j | 0 <= j < total ::
              1 <= parts[j].number <= total && Collected(parts, total)[parts[j].number - 1] == parts[j]
    ensures forall i, j | 0 <= i < j < total :: parts[i].number != parts[j].number
  {
    AtLeastOneEach(parts, total, total);
    LowIsAllIff(parts, total, |parts|);
    CollectedLength(parts, total);
    forall j | 0 <= j < total
      ensures 1 <= parts[j].number <= total && Collected(parts, total)[parts[j].number - 1] == parts[j]
      ensures forall i | 0 <= i < j :: parts[i].number != parts[j].number
    {
      var n := parts[j].number;
      FoundOnce(parts, total, n);
      AtHas(parts, n, |parts|, j);
      CollectedPlace(parts, total, total, n);
    }
  }

  lemma {:induction false} CollectedPlace(parts: seq<Part>, total: nat, m: nat, n: nat)
    requires AllNumbers(parts, total) && 1 <= n <= m <= total
    ensures |Collected(parts, m)| == m && |At(parts, n, |parts|)| == 1
            && Collected(parts, m)[n - 1] == At(parts, n, |parts|)[0]
  {
    CollectedLength(parts, m);
    CollectedLength(parts, m - 1);
    FoundOnce(parts, total, m);
    FoundOnce(parts, total, n);
    if n < m { CollectedPlace(parts, total, m - 1, n); } else { LowSplits(parts, n, |parts|); }
  }

  // ---- The checks of CompleteUpload -------------------------------------------------------------

  predicate LongAt(parts: seq<Part>, n: int, minChunk: int) {
    forall j | 0 <= j < |parts| && parts[j].number == n :: parts[j].size >= minChunk
  }

  /** No part numbered below `n`, other than the last of the plan, is shorter than the minimum. */
  predicate LongEnough(parts: seq<Part>, plan: Plan, minChunk: int, n: int) {
    forall m | 1 <= m < n && m < plan.total :: LongAt(parts, m, minChunk)
  }

  predicate Complete(parts: seq<Part>, plan: Plan, minChunk: int) {
    && AllNumbers(parts, plan.total)
    && LongEnough(parts, plan, minChunk, plan.total + 1)
    && (plan.size > 0 ==> CollectedSize(parts, plan.total) == plan.size)
  }

  predicate Occurs(parts: seq<Part>, n: int) {
    exists j :: 0 <= j < |parts| && parts[j].number == n
  }

  lemma PresentIff(parts: seq<Part>, n: int)
    ensures Present(parts, n) <==> Occurs(parts, n)
  {
    if Present(parts, n) {
      var j := AtIsSome(parts, n, |parts|);
    } else if j :| 0 <= j < |parts| && parts[j].number == n {
      SomeIsAt(parts, n, j, |parts|);
    }
  }

  lemma LongEnoughIff(parts: seq<Part>, plan: Plan, minChunk: int)
    ensures LongEnough(parts, plan, minChunk, plan.total + 1) <==>
              forall j | 0 <= j < |parts| && 1 <= parts[j].number < plan.total :: parts[j].size >= minChunk
  {
    if LongEnough(parts, plan, minChunk, plan.total + 1) {
      forall j | 0 <= j < |parts| && 1 <= parts[j].number < plan.total ensures parts[j].size >= minChunk {
        assert LongAt(parts, parts[j].number, minChunk);
      }
    }
  }

  /** A listing is complete exactly when there are as many parts as the plan has chunks, every number occurs, all but
      the last chunk have the minimum size at least, and the sizes add up. */
  lemma CompleteIff(parts: seq<Part>, plan: Plan, minChunk: int)
    ensures Complete(parts, plan, minChunk) <==>
              && |parts| == plan.total
              && (forall n | 1 <= n <= plan.total :: Occurs(parts, n))
              && (forall j | 0 <= j < |parts| && 1 <= parts[j].number < plan.total :: parts[j].size >= minChunk)
              && (plan.size > 0 ==> CollectedSize(parts, plan.total) == plan.size)
  {
    forall n ensures Present(parts, n) <==> Occurs(parts, n) { PresentIff(parts, n); }
    LongEnoughIff(parts, plan, minChunk);
  }

  lemma {:induction false} SomeIsAt(parts: seq<Part>, n: int, j: nat, k: nat)
    requires j < k <= |parts| && parts[j].number == n
    ensures |At(parts, n, k)| > 0
    decreases k
  {
    if j < k - 1 { SomeIsAt(parts, n, j, k - 1); }
  }

  predicate KeysMatch(keys: seq<string>, got: seq<Part>) {
    |keys| == |got| && forall i | 0 <= i < |got| :: keys[i] == got[i].key
  }

  /** The loops of CompleteUpload over the listed parts. */
  method CollectParts(parts: seq<Part>, plan: Plan, minChunk: int) returns (ok: bool, keys: seq<string>, total: int)
    ensures ok <==> Complete(parts, plan, minChunk)
    ensures ok ==> KeysMatch(keys, Collected(parts, plan.total)) && total == CollectedSize(parts, plan.total)
  {
    ok, total, keys := false, 0, [];
    if |parts| != plan.total { return; }
    ghost var got: seq<Part> := [];
    var i := 1;
    while i <= plan.total
      invariant 1 <= i <= plan.total + 1
      invariant got == Collected(parts, i - 1) && total == CollectedSize(parts, i - 1) && KeysMatch(keys, got)
      invariant forall m | 1 <= m < i :: Present(parts, m)
      invariant LongEnough(parts, plan, minChunk, i)
    {
      var found, short;
      found, short, total, keys := CollectNumber(parts, i, i < plan.total, minChunk, got, total, keys);
      if short || !found { return; }
      got := got + At(parts, i, |parts|);
      i := i + 1;
    }
    ok := plan.size <= 0 || total == plan.size;
  }

  /** The inner loop. It goes on after a hit. */
  method CollectNumber(parts: seq<Part>, n: int, bounded: bool, minChunk: int, ghost got: seq<Part>, total0: int,
                       keys0: seq<string>)
    returns (found: bool, short: bool, total: int, keys: seq<string>)
    requires KeysMatch(keys0, got)
    ensures short <==> bounded && !LongAt(parts, n, minChunk)
    ensures !short ==> (found <==> Present(parts, n))
    ensures !short ==> total == total0 + SizeAt(parts, n, |parts|) && KeysMatch(keys, got + At(parts, n, |parts|))
  {
    found, total, keys := false, total0, keys0;
    var k := 0;
    while k < |parts|
      invariant 0 <= k <= |parts|
      invariant found <==> |At(parts, n, k)| > 0
      invariant total == total0 + SizeAt(parts, n, k) && KeysMatch(keys, got + At(parts, n, k))
      invariant bounded ==> forall j | 0 <= j < k && parts[j].number == n :: parts[j].size >= minChunk
    {
      var p := parts[k];
      if p.number == n {
        found := true;
        total := total + p.size;
        keys := keys + [p.key];
        if bounded && p.size < minChunk { return found, true, total, keys; }
      }
      k := k + 1;
    }
    short := false;
  }

  // ---- The plan and the parts -------------------------------------------------------------------

  /** The most UploadChunk takes for a part. */
  function Cap(plan: Plan, number: int): int {
    if number == plan.total && plan.size > 0 then plan.size - (plan.total - 1) * plan.chunk else plan.chunk
  }

  predicate WithinCaps(plan: Plan, parts: seq<Part>) {
    forall j | 0 <= j < |parts| :: parts[j].size <= Cap(plan, parts[j].number)
  }

  predicate Exact(plan: Plan, parts: seq<Part>) {
    forall j | 0 <= j < |parts| :: parts[j].size == Cap(plan, parts[j].number)
  }

  /** If every part came through UploadChunk, the upload is complete exactly when there is one part
      of the planned size for every number: nothing short of that adds up. */
  lemma ChunksCompleteIff(plan: Plan, parts: seq<Part>, minChunk: int)
    requires plan.size > 0 && plan.total >= 1 && plan.chunk >= minChunk && WithinCaps(plan, parts)
    ensures Complete(parts, plan, minChunk) <==> AllNumbers(parts, plan.total) && Exact(plan, parts)
  {
    if AllNumbers(parts, plan.total) {
      CollectedOnce(parts, plan.total);
      SizesAddUp(plan, parts, plan.total);
      assert Exact(plan, parts) ==> LongEnough(parts, plan, minChunk, plan.total + 1);
      assert Full(plan, plan.total) == plan.size;
      if CollectedSize(parts, plan.total) == plan.size {
        forall j | 0 <= j < |parts| ensures parts[j].size == Cap(plan, parts[j].number) {
          assert ExactAt(plan, parts, parts[j].number);
          FoundOnce(parts, plan.total, parts[j].number);
          AtHas(parts, parts[j].number, |parts|, j);
        }
      } else if Exact(plan, parts) {
        forall n | 1 <= n <= plan.total ensures ExactAt(plan, parts, n) {
          FoundOnce(parts, plan.total, n);
          var j := AtIsSome(parts, n, |parts|);
        }
      }
    }
  }

  predicate ExactAt(plan: Plan, parts: seq<Part>, n: int) {
    SizeAt(parts, n, |parts|) == Cap(plan, n)
  }

  lemma {:induction false} AtIsSome(parts: seq<Part>, n: int, k: nat) returns (j: nat)
    requires k <= |parts| && |At(parts, n, k)| > 0
    ensures j < k && parts[j].number == n && At(parts, n, k)[0] == parts[j]
  {
    if |At(parts, n, k - 1)| > 0 { j := AtIsSome(parts, n, k - 1); } else { j := k - 1; }
  }

  predicate ExactUpTo(plan: Plan, parts: seq<Part>, n: nat) {
    forall m | 1 <= m <= n :: ExactAt(plan, parts, m)
  }

  /** What the first `n` parts of the plan hold together. */
  function Full(plan: Plan, n: nat): int {
    if 0 < n == plan.total then plan.size else n * plan.chunk
  }

  lemma FullStep(plan: Plan, n: nat)
    requires plan.size > 0 && 0 < n <= plan.total
    ensures Full(plan, n) == Full(plan, n - 1) + Cap(plan, n)
  {
    assert n * plan.chunk == (n - 1) * plan.chunk + plan.chunk;
  }

  /** Sizes within their caps add up to at most what is planned, and to all of it only if every one
      reaches its cap. */
  lemma {:induction false} SizesAddUp(plan: Plan, parts: seq<Part>, n: nat)
    requires plan.size > 0 && AllNumbers(parts, plan.total) && WithinCaps(plan, parts) && n <= plan.total
    ensures CollectedSize(parts, n) <= Full(plan, n)
    ensures CollectedSize(parts, n) == Full(plan, n) <==> ExactUpTo(plan, parts, n)
  {
    if n > 0 {
      SizesAddUp(plan, parts, n - 1);
      FoundOnce(parts, plan.total, n);
      var j := AtIsSome(parts, n, |parts|);
      assert SizeAt(parts, n, |parts|) <= Cap(plan, n);
      FullStep(plan, n);
      assert CollectedSize(parts, n) == CollectedSize(parts, n - 1) + SizeAt(parts, n, |parts|);
      assert ExactUpTo(plan, parts, n) <==> ExactUpTo(plan, parts, n - 1) && ExactAt(plan, parts, n);
    }
  }
}
