/**
 What a run issued and delivered, and the comparison of two runs.
 */
module Verify {
  import opened Fnv
  import opened Sums
  import opened Arith

  datatype Phase = Read | Write

  function PhaseCode(phase: Phase): U64 {
    if phase.Read? then 1 else 2
  }

  datatype Issued = Issued(offset: U64, len: U32)

  /** What one operation reported, and what the application can read of it. */
  datatype Delivery = Delivery(phase: Phase, offset: U64, transferred: U32, bytes: seq<Byte>) {

    /** The bytes the operation actually transferred: stale trailing content is not charged. */
    function Taken(): seq<Byte> {
      bytes[..Min(transferred, |bytes|)]
    }

    /** Everything the operation's hash covers. */
    function Stream(): seq<Byte> {
      LittleEndian(PhaseCode(phase), 8) + LittleEndian(offset, 8) + LittleEndian(transferred, 8) + Taken()
    }

    function Hash(): U64 {
      Feed(OFFSET_BASIS, Stream())
    }
  }

  /** The value of a trace. */
  datatype TraceView = TraceView(issued: seq<Issued>, digest: U64, deliveredBytes: nat, completions: nat)

  const EMPTY_TRACE := TraceView([], 0, 0, 0)

  datatype Mismatch =
    | OperationCount(leftCount: nat, rightCount: nat)
    | IssueOrder(index: nat, leftOp: Issued, rightOp: Issued)
    | CompletionCount(leftCount: nat, rightCount: nat)
    | DeliveredBytes(leftBytes: nat, rightBytes: nat)
    | Delivered(leftDigest: U64, rightDigest: U64)

  datatype Agreement = Agree | Disagree(mismatch: Mismatch)

  /** `index` is the first position at which two issue traces of one length part. */
  ghost predicate FirstPartAt(a: seq<Issued>, b: seq<Issued>, index: nat) {
    && |a| == |b| && index < |a|
    && a[..index] == b[..index] && a[index] != b[index]
  }

  /** `mismatch` is the first difference between two traces, in the order the comparison looks. */
  ghost predicate IsFirstDifference(a: TraceView, b: TraceView, mismatch: Mismatch) {
    match mismatch
    case OperationCount(l, r) => l == |a.issued| && r == |b.issued| && l != r
    case IssueOrder(i, l, r) => FirstPartAt(a.issued, b.issued, i) && l == a.issued[i] && r == b.issued[i]
    case CompletionCount(l, r) => a.issued == b.issued && l == a.completions && r == b.completions && l != r
    case DeliveredBytes(l, r) =>
      && a.issued == b.issued && a.completions == b.completions
      && l == a.deliveredBytes && r == b.deliveredBytes && l != r
    case Delivered(l, r) =>
      && a.issued == b.issued && a.completions == b.completions && a.deliveredBytes == b.deliveredBytes
      && l == a.digest && r == b.digest && l != r
  }

  /** What the comparison must answer. */
  ghost predicate IsVerdict(a: TraceView, b: TraceView, verdict: Agreement) {
    match verdict
    case Agree => a == b
    case Disagree(mismatch) => IsFirstDifference(a, b, mismatch)
  }

  /** The first difference is unique, so the answer is a function of the two traces. */
  lemma VerdictIsUnique(a: TraceView, b: TraceView, v: Agreement, w: Agreement)
    requires IsVerdict(a, b, v) && IsVerdict(a, b, w)
    ensures v == w
  {
    if v.Disagree? && w.Disagree? && v.mismatch.IssueOrder? && w.mismatch.IssueOrder? {
      var i, j := v.mismatch.index, w.mismatch.index;
      if i < j {
        PrefixesAgree(a.issued, b.issued, i, j);
        assert false;
      } else if j < i {
        PrefixesAgree(a.issued, b.issued, j, i);
        assert false;
      }
    }
  }

  /** The verdict case by case: the first of the five comparisons that fails is the one named. */
  lemma VerdictByCases(a: TraceView, b: TraceView, v: Agreement)
    requires IsVerdict(a, b, v)
    ensures |a.issued| != |b.issued| ==> v == Disagree(OperationCount(|a.issued|, |b.issued|))
    ensures |a.issued| == |b.issued| && a.issued != b.issued ==> v.Disagree? && v.mismatch.IssueOrder?
    ensures a.issued == b.issued && a.completions != b.completions ==>
              v == Disagree(CompletionCount(a.completions, b.completions))
    ensures a.issued == b.issued && a.completions == b.completions && a.deliveredBytes != b.deliveredBytes ==>
              v == Disagree(DeliveredBytes(a.deliveredBytes, b.deliveredBytes))
    ensures b == a.(digest := b.digest) && a.digest != b.digest ==> v == Disagree(Delivered(a.digest, b.digest))
    ensures a == b ==> v == Agree
  {
  }

  lemma PrefixesAgree(a: seq<Issued>, b: seq<Issued>, i: nat, n: nat)
    requires i < n <= |a| && n <= |b| && a[..n] == b[..n]
    ensures a[i] == b[i]
  {
    assert a[i] == a[..n][i] == b[..n][i];
  }

  class Trace {
    var issued: seq<Issued>
    var digest: U64
    var deliveredBytes: nat
    var completions: nat

    function View(): TraceView
      reads this
    {
      TraceView(issued, digest, deliveredBytes, completions)
    }

    constructor ()
      ensures View() == EMPTY_TRACE
    {
      issued, digest, deliveredBytes, completions := [], 0, 0, 0;
    }

    method RecordIssued(offset: U64, len: U32)
      modifies this
      ensures View() == old(View()).(issued := old(issued) + [Issued(offset, len)])
    {
      issued := issued + [Issued(offset, len)];
    }

    /** Folds one delivery in with wrapping addition. */
    method RecordDelivered(phase: Phase, offset: U64, transferred: U32, bytes: seq<Byte>)
      modifies this
      ensures View() == Deliver(old(View()), Delivery(phase, offset, transferred, bytes))
      ensures issued == old(issued) && completions == old(completions) + 1
      ensures deliveredBytes == old(deliveredBytes) + Min(transferred, |bytes|)
      ensures digest == (old(digest) + Delivery(phase, offset, transferred, bytes).Hash()) % TWO_64
    {
      hide Feed, LittleEndian;
      ghost var delivery := Delivery(phase, offset, transferred, bytes);
      var h := FeedLoop(OFFSET_BASIS, LittleEndian(PhaseCode(phase), 8));
      h := FeedLoop(h, LittleEndian(offset, 8));
      h := FeedLoop(h, LittleEndian(transferred, 8));
      var take := Min(transferred, |bytes|);
      h := FeedLoop(h, bytes[..take]);
      StreamInFour(delivery);
      digest := WrappingAdd(digest, h);
      deliveredBytes := deliveredBytes + take;
      completions := completions + 1;
    }

    method AgreesWith(other: Trace) returns (verdict: Agreement)
      ensures IsVerdict(View(), other.View(), verdict)
    {
      verdict := Compare(View(), other.View());
    }
  }

  /** Compares two traces, describing the first difference. */
  method Compare(a: TraceView, b: TraceView) returns (verdict: Agreement)
    ensures IsVerdict(a, b, verdict)
  {
    if |a.issued| != |b.issued| {
      return Disagree(OperationCount(|a.issued|, |b.issued|));
    }
    for i := 0 to |a.issued|
      invariant a.issued[..i] == b.issued[..i]
    {
      if a.issued[i] != b.issued[i] {
        return Disagree(IssueOrder(i, a.issued[i], b.issued[i]));
      }
    }
    assert a.issued[..|a.issued|] == a.issued && b.issued[..|b.issued|] == b.issued;
    if a.completions != b.completions {
      return Disagree(CompletionCount(a.completions, b.completions));
    }
    if a.deliveredBytes != b.deliveredBytes {
      return Disagree(DeliveredBytes(a.deliveredBytes, b.deliveredBytes));
    }
    if a.digest != b.digest {
      return Disagree(Delivered(a.digest, b.digest));
    }
    return Agree;
  }

  lemma StreamInFour(d: Delivery)
    ensures d.Hash() == Feed(Feed(Feed(Feed(OFFSET_BASIS, LittleEndian(PhaseCode(d.phase), 8)),
                                  LittleEndian(d.offset, 8)), LittleEndian(d.transferred, 8)), d.Taken())
  {
    var a, b, c := LittleEndian(PhaseCode(d.phase), 8), LittleEndian(d.offset, 8), LittleEndian(d.transferred, 8);
    FeedConcat(OFFSET_BASIS, a + b + c, d.Taken());
    FeedConcat(OFFSET_BASIS, a + b, c);
    FeedConcat(OFFSET_BASIS, a, b);
  }

  /**
   What the hash covers, byte by byte: the phase, the offset and the count in eight
   bytes each, lowest first, and then as many readable bytes as were transferred.
   */
  lemma StreamLayout(d: Delivery, i: nat)
    requires i < 8
    ensures |d.Stream()| == 24 + Min(d.transferred, |d.bytes|)
    ensures d.Stream()[i] == if i > 0 then 0 else if d.phase.Read? then 1 else 2
    ensures d.Stream()[8 + i] == d.offset / Pow256(i) % 256
    ensures d.Stream()[16 + i] == d.transferred / Pow256(i) % 256
    ensures d.Stream()[24..] == d.bytes[..Min(d.transferred, |d.bytes|)]
  {
    var code := PhaseCode(d.phase);
    LittleEndianDigits(code, 8, i);
    LittleEndianDigits(d.offset, 8, i);
    LittleEndianDigits(d.transferred, 8, i);
    SmallDigit(code, i);
    hide LittleEndian, Pow256;
  }

  lemma SmallDigit(code: Byte, i: nat)
    ensures code / Pow256(i) % 256 == if i == 0 then code else 0
  {
    if i > 0 {
      var p := Pow256(i - 1);
      assert Pow256(i) == 256 * p && code < 256 * p;
      QuotientIsUnique(code, Pow256(i), 0, code);
    } else {
      assert Pow256(0) == 1;
    }
  }

  // ------------------------------------------------- many deliveries, any order

  function HashOf(d: Delivery): nat {
    d.Hash()
  }

  function BytesOf(d: Delivery): nat {
    |d.Taken()|
  }

  /** One delivery, under any per-operation hash. */
  function DeliverBy(hash: Delivery -> nat, v: TraceView, d: Delivery): TraceView {
    v.(digest := (v.digest + hash(d)) % TWO_64,
       deliveredBytes := v.deliveredBytes + BytesOf(d),
       completions := v.completions + 1)
  }

  function DeliverAllBy(hash: Delivery -> nat, v: TraceView, ds: seq<Delivery>): TraceView {
    if ds == [] then v else DeliverBy(hash, DeliverAllBy(hash, v, ds[..|ds| - 1]), ds[|ds| - 1])
  }

  function Deliver(v: TraceView, d: Delivery): TraceView {
    DeliverBy(HashOf, v, d)
  }

  /** The trace after deliveries that completed in the given order. */
  function DeliverAll(v: TraceView, ds: seq<Delivery>): TraceView {
    DeliverAllBy(HashOf, v, ds)
  }

  /** Whatever the hash, a trace holds sums: of the hashes modulo 2^64, of the bytes, of the operations. */
  lemma {:induction false} DeliverAllIsASum(hash: Delivery -> nat, v: TraceView, ds: seq<Delivery>)
    ensures DeliverAllBy(hash, v, ds)
         == v.(digest := (v.digest + Sum(hash, ds)) % TWO_64,
               deliveredBytes := v.deliveredBytes + Sum(BytesOf, ds),
               completions := v.completions + |ds|)
  {
    if ds != [] {
      var front, last := ds[..|ds| - 1], ds[|ds| - 1];
      DeliverAllIsASum(hash, v, front);
      assert ds == front + [last];
      SumConcat(hash, front, [last]);
      SumConcat(BytesOf, front, [last]);
      SumOne(hash, last);
      SumOne(BytesOf, last);
      WrapOnce(v.digest + Sum(hash, front), hash(last));
    }
  }

  lemma WrapOnce(a: nat, b: nat)
    ensures (a % TWO_64 + b) % TWO_64 == (a + b) % TWO_64
  {
  }

  /** Completion order cannot enter a trace. */
  lemma CompletionOrderIsInvisible(hash: Delivery -> nat, v: TraceView, ds: seq<Delivery>, ds': seq<Delivery>)
    requires multiset(ds) == multiset(ds')
    ensures DeliverAllBy(hash, v, ds) == DeliverAllBy(hash, v, ds')
  {
    hide Sum, DeliverAllBy, BytesOf;
    DeliverAllIsASum(hash, v, ds);
    DeliverAllIsASum(hash, v, ds');
    SumOfPermutation(hash, ds, ds');
    SumOfPermutation(BytesOf, ds, ds');
    SameSize(ds, ds');
  }

  lemma SameSize<T>(a: seq<T>, b: seq<T>)
    requires multiset(a) == multiset(b)
    ensures |a| == |b|
  {
    assert |multiset(a)| == |a| && |multiset(b)| == |b|;
  }

  /** Two deliveries alike in everything but one byte the application can read. */
  ghost predicate DifferInOneByte(d: Delivery, d': Delivery) {
    && d.phase == d'.phase && d.offset == d'.offset && d.transferred == d'.transferred
    && exists i: nat :: DifferOnlyAt(d.Taken(), d'.Taken(), i)
  }

  lemma OneByteSeparatesHashes(d: Delivery, d': Delivery)
    requires DifferInOneByte(d, d')
    ensures d.Hash() != d'.Hash()
  {
    var i: nat :| DifferOnlyAt(d.Taken(), d'.Taken(), i);
    var header := LittleEndian(PhaseCode(d.phase), 8) + LittleEndian(d.offset, 8) + LittleEndian(d.transferred, 8);
    FeedConcat(OFFSET_BASIS, header, d.Taken());
    FeedConcat(OFFSET_BASIS, header, d'.Taken());
    OneByteNeverCollides(Feed(OFFSET_BASIS, header), d.Taken(), d'.Taken(), i);
  }

  /** Deliveries alike but for one byte of where they were or of how much was transferred. */
  ghost predicate DifferInOneNumber(d: Delivery, d': Delivery, i: nat) {
    && d.phase == d'.phase && d.Taken() == d'.Taken()
    && ((d.transferred == d'.transferred && DifferInDigit(d.offset, d'.offset, 8, i))
        || (d.offset == d'.offset && DifferInDigit(d.transferred, d'.transferred, 8, i)))
  }

  lemma OneNumberSeparatesHashes(d: Delivery, d': Delivery, i: nat)
    requires DifferInOneNumber(d, d', i)
    ensures d.Hash() != d'.Hash()
  {
    var phase, offset, count := LittleEndian(PhaseCode(d.phase), 8), LittleEndian(d.offset, 8), LittleEndian(d.transferred, 8);
    var offset', count' := LittleEndian(d'.offset, 8), LittleEndian(d'.transferred, 8);
    if d.transferred == d'.transferred {
      OneDigitIsOneByte(d.offset, d'.offset, 8, i);
      DifferInside(phase, offset, offset', count + d.Taken(), i);
      assert d.Stream() == phase + offset + (count + d.Taken());
      assert d'.Stream() == phase + offset' + (count + d.Taken());
      OneByteNeverCollides(OFFSET_BASIS, d.Stream(), d'.Stream(), 8 + i);
    } else {
      OneDigitIsOneByte(d.transferred, d'.transferred, 8, i);
      DifferInside(phase + offset, count, count', d.Taken(), i);
      OneByteNeverCollides(OFFSET_BASIS, d.Stream(), d'.Stream(), 16 + i);
    }
  }

  lemma WriteAndReadBackDiffer(offset: U64, transferred: U32, bytes: seq<Byte>)
    ensures Delivery(Write, offset, transferred, bytes).Hash() != Delivery(Read, offset, transferred, bytes).Hash()
  {
    var w, r := Delivery(Write, offset, transferred, bytes), Delivery(Read, offset, transferred, bytes);
    LowByteOnly(1, 7);
    LowByteOnly(2, 7);
    var rest := LittleEndian(offset, 8) + LittleEndian(transferred, 8) + w.Taken();
    HeadsDiffer(LittleEndian(2, 8), LittleEndian(1, 8), rest);
    assert w.Stream() == LittleEndian(2, 8) + rest;
    assert r.Stream() == LittleEndian(1, 8) + rest;
    OneByteNeverCollides(OFFSET_BASIS, w.Stream(), r.Stream(), 0);
  }

  lemma LowByteOnly(b: Byte, width: nat)
    ensures LittleEndian(b, width + 1) == [b] + LittleEndian(0, width)
  {
    assert b % 256 == b && b / 256 == 0;
  }

  lemma HeadsDiffer(a: seq<Byte>, b: seq<Byte>, rest: seq<Byte>)
    requires |a| == |b| > 0 && a[0] != b[0] && a[1..] == b[1..]
    ensures DifferOnlyAt(a + rest, b + rest, 0)
  {
    assert (a + rest)[1..] == a[1..] + rest && (b + rest)[1..] == b[1..] + rest;
  }

  /**
   Two runs that started alike and delivered the same but for one byte of one
   delivery are told apart by the digest, whatever order each completed in.
   */
  lemma OneChangedByteIsRejected(v: TraceView, ds: seq<Delivery>, ds': seq<Delivery>,
                                 common: seq<Delivery>, d: Delivery, d': Delivery)
    requires multiset(ds) == multiset(common) + multiset{d}
    requires multiset(ds') == multiset(common) + multiset{d'}
    requires DifferInOneByte(d, d')
    ensures var left, right := DeliverAll(v, ds), DeliverAll(v, ds');
            IsVerdict(left, right, Disagree(Delivered(left.digest, right.digest)))
  {
    OneByteSeparatesHashes(d, d');
    ChangedHashIsRejected(HashOf, v, ds, ds', common, d, d');
  }

  /** So are two runs alike but for one byte of one delivery's offset or count. */
  lemma OneChangedNumberIsRejected(v: TraceView, ds: seq<Delivery>, ds': seq<Delivery>,
                                   common: seq<Delivery>, d: Delivery, d': Delivery, i: nat)
    requires multiset(ds) == multiset(common) + multiset{d}
    requires multiset(ds') == multiset(common) + multiset{d'}
    requires DifferInOneNumber(d, d', i)
    ensures var left, right := DeliverAll(v, ds), DeliverAll(v, ds');
            IsVerdict(left, right, Disagree(Delivered(left.digest, right.digest)))
  {
    OneNumberSeparatesHashes(d, d', i);
    ChangedHashIsRejected(HashOf, v, ds, ds', common, d, d');
  }

  lemma ChangedHashIsRejected(hash: Delivery -> nat, v: TraceView, ds: seq<Delivery>, ds': seq<Delivery>,
                              common: seq<Delivery>, d: Delivery, d': Delivery)
    requires multiset(ds) == multiset(common) + multiset{d}
    requires multiset(ds') == multiset(common) + multiset{d'}
    requires hash(d) < TWO_64 && hash(d') < TWO_64 && hash(d) != hash(d') && BytesOf(d) == BytesOf(d')
    ensures var left, right := DeliverAllBy(hash, v, ds), DeliverAllBy(hash, v, ds');
            IsVerdict(left, right, Disagree(Delivered(left.digest, right.digest)))
  {
    CompletionOrderIsInvisible(hash, v, ds, common + [d]);
    CompletionOrderIsInvisible(hash, v, ds', common + [d']);
    LastDelivery(hash, v, common, d);
    LastDelivery(hash, v, common, d');
    LastHashDecides(hash, DeliverAllBy(hash, v, common), d, d');
  }

  lemma LastHashDecides(hash: Delivery -> nat, base: TraceView, d: Delivery, d': Delivery)
    requires hash(d) < TWO_64 && hash(d') < TWO_64 && hash(d) != hash(d') && BytesOf(d) == BytesOf(d')
    ensures var left, right := DeliverBy(hash, base, d), DeliverBy(hash, base, d');
            IsVerdict(left, right, Disagree(Delivered(left.digest, right.digest)))
  {
    WrappingAddSeparates(base.digest, hash(d), hash(d'));
  }

  lemma LastDelivery(hash: Delivery -> nat, v: TraceView, ds: seq<Delivery>, d: Delivery)
    ensures DeliverAllBy(hash, v, ds + [d]) == DeliverBy(hash, DeliverAllBy(hash, v, ds), d)
  {
    assert (ds + [d])[..|ds|] == ds;
  }

  lemma WrappingAddSeparates(a: U64, b: U64, c: U64)
    requires b != c
    ensures WrappingAdd(a, b) != WrappingAdd(a, c)
  {
  }
}
