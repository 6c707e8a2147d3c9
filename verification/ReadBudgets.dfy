/** Reads that share one budget, of files that may change size under them (src/fs_budget.rs). */
module ReadBudgets {
  import opened Orders

  const U64_MAX: nat := 0xFFFF_FFFF_FFFF_FFFF

  newtype u64 = n: int | 0 <= n <= 0xFFFF_FFFF_FFFF_FFFF

  type Bytes = seq<bv8>

  function SaturatingSub(a: u64, b: u64): u64 {
    if a > b then a - b else 0
  }

  function Smaller(a: u64, b: u64): u64 {
    if a < b then a else b
  }

  datatype Budget = Budget(maxFileBytes: u64, remainingTotalBytes: u64, remainingFiles: u64)

  datatype ReadOutcome =
    | Content(bytes: Bytes)
    | Oversized(size: u64)
    | BudgetExceeded
    | DeadlineExceeded
    | NotRegularFile
    | Unreadable

  /** What opening the path gives: a failure, or a file with the length its metadata claims, if readable. */
  datatype Opened = OpenFailed(outcome: ReadOutcome) | OpenFile(statLength: Option<u64>, regular: bool)

  /**
   * One request: its path, the clock before and after reading, the file as opened, and the bytes it holds
   * by the time it is read, which need not be as many as its metadata said.
   */
  datatype Attempt = Attempt(normalPath: bool, lateBefore: bool, handle: Opened, bytes: Bytes, readFails: bool,
                             lateAfter: bool, utf8: bool)

  /** Opening reports only failures. */
  predicate Sane(a: Attempt) {
    && |a.bytes| <= U64_MAX
    && (a.handle.OpenFailed? ==> a.handle.outcome.NotRegularFile? || a.handle.outcome.Unreadable?)
  }

  function CapOf(b: Budget): u64 {
    Smaller(b.maxFileBytes, b.remainingTotalBytes)
  }

  /** Whether the attempt gets as far as reading, and how many bytes it then takes from the file at most. */
  predicate ReachesRead(b: Budget, a: Attempt) {
    && a.normalPath && !a.lateBefore && b.remainingFiles > 0 && b.remainingTotalBytes > 0
    && a.handle.OpenFile? && a.handle.statLength.Some? && a.handle.regular && a.handle.statLength.value <= CapOf(b)
  }

  /** The bytes one attempt takes out of the file and charges, if its read completes. */
  function Transferred(b: Budget, a: Attempt): nat {
    if ReachesRead(b, a) && !a.readFails
    then
      if |a.bytes| <= CapOf(b) as int then |a.bytes|
      else if CapOf(b) as int < U64_MAX then CapOf(b) as int + 1
      else U64_MAX
    else 0
  }

  class ReadBudget {
    const maxFileBytes: u64
    var remainingTotalBytes: u64
    var remainingFiles: u64

    /** Limits below one count as one. */
    constructor (maxFileBytes: u64, maxTotalBytes: u64, maxFiles: u64)
      ensures Value() == Budget(if maxFileBytes < 1 then 1 else maxFileBytes,
                                if maxTotalBytes < 1 then 1 else maxTotalBytes, if maxFiles < 1 then 1 else maxFiles)
    {
      this.maxFileBytes := if maxFileBytes < 1 then 1 else maxFileBytes;
      remainingTotalBytes := if maxTotalBytes < 1 then 1 else maxTotalBytes;
      remainingFiles := if maxFiles < 1 then 1 else maxFiles;
    }

    function Value(): Budget
      reads this
    {
      Budget(maxFileBytes, remainingTotalBytes, remainingFiles)
    }

    method Consume(bytes: u64)
      modifies this`remainingTotalBytes, this`remainingFiles
      ensures remainingFiles == SaturatingSub(old(remainingFiles), 1)
      ensures remainingTotalBytes == SaturatingSub(old(remainingTotalBytes), bytes)
    {
      remainingFiles := SaturatingSub(remainingFiles, 1);
      remainingTotalBytes := SaturatingSub(remainingTotalBytes, bytes);
    }

    method ReadFromRoot(a: Attempt) returns (outcome: ReadOutcome)
      requires Sane(a)
      modifies this`remainingTotalBytes, this`remainingFiles
      ensures outcome == OutcomeOf(old(Value()), a) && Value() == Charged(old(Value()), a)
    {
      if !a.normalPath {
        return NotRegularFile;
      }
      if a.lateBefore {
        return DeadlineExceeded;
      }
      if remainingFiles == 0 || remainingTotalBytes == 0 {
        return BudgetExceeded;
      }
      if a.handle.OpenFailed? {
        return a.handle.outcome;
      }
      if a.handle.statLength.None? {
        return Unreadable;
      }
      if !a.handle.regular {
        return NotRegularFile;
      }
      var cap := Smaller(maxFileBytes, remainingTotalBytes);
      var claimed := a.handle.statLength.value;
      if claimed > maxFileBytes {
        return Oversized(claimed);
      }
      if claimed > cap {
        return BudgetExceeded;
      }
      if a.readFails {
        return Unreadable;
      }
      var take := if cap as int < U64_MAX then cap + 1 else cap;
      var bytes := if |a.bytes| <= take as int then a.bytes else a.bytes[..take];
      var len := |bytes| as u64;
      Consume(len);
      if len > cap {
        return if cap < maxFileBytes then BudgetExceeded else Oversized(len);
      }
      if a.lateAfter {
        return DeadlineExceeded;
      }
      return if a.utf8 then Content(bytes) else Unreadable;
    }
  }

  // ---------- What an attempt is specified to do ----------

  /** Only a completed read is charged: one file, and every byte taken. */
  function Charged(b: Budget, a: Attempt): Budget
    requires Sane(a)
  {
    if ReachesRead(b, a) && !a.readFails
    then b.(remainingTotalBytes := SaturatingSub(b.remainingTotalBytes, Transferred(b, a) as u64),
            remainingFiles := b.remainingFiles - 1)
    else b
  }

  /** The first reason that applies, in the order a reader meets them. */
  function OutcomeOf(b: Budget, a: Attempt): ReadOutcome
    requires Sane(a)
  {
    var grown := |a.bytes| > CapOf(b) as int;
    if !a.normalPath then NotRegularFile
    else if a.lateBefore then DeadlineExceeded
    else if b.remainingFiles == 0 || b.remainingTotalBytes == 0 then BudgetExceeded
    else match a.handle
      case OpenFailed(outcome) => outcome
      case OpenFile(None, _) => Unreadable
      case OpenFile(Some(claimed), regular) =>
        if !regular then NotRegularFile
        else if claimed > b.maxFileBytes then Oversized(claimed)
        else if claimed > b.remainingTotalBytes then BudgetExceeded
        else if a.readFails then Unreadable
        else if grown && b.remainingTotalBytes < b.maxFileBytes then BudgetExceeded
        else if grown then Oversized(Transferred(b, a) as u64)
        else if a.lateAfter then DeadlineExceeded
        else if a.utf8 then Content(a.bytes)
        else Unreadable
  }

  /** Something is left to read with, in time. */
  ghost predicate MayOpen(b: Budget, a: Attempt) {
    a.normalPath && !a.lateBefore && b.remainingFiles > 0 && b.remainingTotalBytes > 0
  }

  /** A regular file was opened whose claimed length exceeds neither the limit for one file nor what is left. */
  ghost predicate MayRead(b: Budget, a: Attempt) {
    && MayOpen(b, a) && a.handle.OpenFile? && a.handle.statLength.Some? && a.handle.regular
    && a.handle.statLength.value <= b.maxFileBytes && a.handle.statLength.value <= b.remainingTotalBytes
  }

  /** What was opened says it is no regular file. */
  ghost predicate IsIrregular(handle: Opened) {
    match handle
    case OpenFailed(outcome) => outcome.NotRegularFile?
    case OpenFile(length, regular) => length.Some? && !regular
  }

  /** Which answer an attempt gets, by the facts of the attempt alone. Only the file limit makes a file oversized. */
  lemma AnswerOfAttempt(b: Budget, a: Attempt)
    requires Sane(a)
    ensures var o, size := OutcomeOf(b, a), |a.bytes|;
            && (o == Content(a.bytes)
                <==> MayRead(b, a) && !a.readFails && size <= b.maxFileBytes as int
                     && size <= b.remainingTotalBytes as int && !a.lateAfter && a.utf8)
            && (o.Content? ==> o.bytes == a.bytes)
            && (o.DeadlineExceeded?
                <==> a.normalPath && (a.lateBefore || (MayRead(b, a) && !a.readFails && size <= b.maxFileBytes as int
                                                       && size <= b.remainingTotalBytes as int && a.lateAfter)))
            && (o.NotRegularFile? <==> !a.normalPath || (MayOpen(b, a) && IsIrregular(a.handle)))
            && (o.BudgetExceeded?
                <==> || (a.normalPath && !a.lateBefore && !MayOpen(b, a))
                     || (MayOpen(b, a) && a.handle.OpenFile? && a.handle.statLength.Some? && a.handle.regular
                         && b.remainingTotalBytes < a.handle.statLength.value <= b.maxFileBytes)
                     || (MayRead(b, a) && !a.readFails && b.remainingTotalBytes < b.maxFileBytes
                         && size > b.remainingTotalBytes as int))
    ensures var o := OutcomeOf(b, a);
            (o.Oversized?
             <==> || (MayOpen(b, a) && a.handle.OpenFile? && a.handle.statLength.Some? && a.handle.regular
                      && a.handle.statLength.value > b.maxFileBytes)
                  || (MayRead(b, a) && !a.readFails && b.maxFileBytes <= b.remainingTotalBytes
                      && |a.bytes| > b.maxFileBytes as int))
            && (o.Oversized? ==> o.size > b.maxFileBytes && (MayRead(b, a) || o.size == a.handle.statLength.value))
  {
  }

  /** An attempt is charged exactly if its read completes: one file, and the bytes up to one beyond what it may read. */
  lemma ChargeOfAttempt(b: Budget, a: Attempt)
    requires Sane(a)
    ensures var after := Charged(b, a);
            if MayRead(b, a) && !a.readFails then
              && after.maxFileBytes == b.maxFileBytes && after.remainingFiles as int == b.remainingFiles as int - 1
              && (|a.bytes| <= b.maxFileBytes as int && |a.bytes| <= b.remainingTotalBytes as int ==>
                    after.remainingTotalBytes as int == b.remainingTotalBytes as int - |a.bytes|)
              && (|a.bytes| > b.remainingTotalBytes as int && b.remainingTotalBytes <= b.maxFileBytes ==>
                    after.remainingTotalBytes == 0)
              && (b.maxFileBytes < b.remainingTotalBytes && |a.bytes| > b.maxFileBytes as int ==>
                    after.remainingTotalBytes as int == b.remainingTotalBytes as int - b.maxFileBytes as int - 1)
            else after == b
  {
  }

  // ---------- Any sequence of reads ----------

  ghost predicate AllSane(attempts: seq<Attempt>) {
    forall i :: 0 <= i < |attempts| ==> Sane(attempts[i])
  }

  /** The budget after the first attempts. */
  function BudgetAfter(b: Budget, attempts: seq<Attempt>): Budget
    requires AllSane(attempts)
  {
    if attempts == [] then b
    else Charged(BudgetAfter(b, attempts[..|attempts| - 1]), attempts[|attempts| - 1])
  }

  function OutcomeAt(b: Budget, attempts: seq<Attempt>, i: nat): ReadOutcome
    requires AllSane(attempts) && i < |attempts|
  {
    OutcomeOf(BudgetAfter(b, attempts[..i]), attempts[i])
  }

  function ContentSize(o: ReadOutcome): nat {
    if o.Content? then |o.bytes| else 0
  }

  function ReturnedBytes(b: Budget, attempts: seq<Attempt>): nat
    requires AllSane(attempts)
  {
    if attempts == [] then 0
    else ReturnedBytes(b, attempts[..|attempts| - 1]) + ContentSize(OutcomeAt(b, attempts, |attempts| - 1))
  }

  function ReturnedFiles(b: Budget, attempts: seq<Attempt>): nat
    requires AllSane(attempts)
  {
    if attempts == [] then 0
    else ReturnedFiles(b, attempts[..|attempts| - 1]) + if OutcomeAt(b, attempts, |attempts| - 1).Content? then 1 else 0
  }

  function TransferredBytes(b: Budget, attempts: seq<Attempt>): nat
    requires AllSane(attempts)
  {
    if attempts == [] then 0
    else
      var before := attempts[..|attempts| - 1];
      TransferredBytes(b, before) + Transferred(BudgetAfter(b, before), attempts[|attempts| - 1])
  }

  lemma OneAttempt(b: Budget, a: Attempt)
    requires Sane(a)
    ensures Charged(b, a).maxFileBytes == b.maxFileBytes
    ensures OutcomeOf(b, a).Content? ==>
              && OutcomeOf(b, a).bytes == a.bytes && |a.bytes| <= b.maxFileBytes as int
              && Transferred(b, a) == |a.bytes| && b.remainingFiles > 0
              && Charged(b, a).remainingFiles == b.remainingFiles - 1
              && Charged(b, a).remainingTotalBytes as int == b.remainingTotalBytes as int - |a.bytes|
    ensures Charged(b, a).remainingTotalBytes <= b.remainingTotalBytes
            && Charged(b, a).remainingFiles <= b.remainingFiles
    ensures Transferred(b, a) + Charged(b, a).remainingTotalBytes as int <= b.remainingTotalBytes as int
            || (Transferred(b, a) == b.remainingTotalBytes as int + 1 && Charged(b, a).remainingTotalBytes == 0)
    ensures b.remainingTotalBytes == 0 ==> Transferred(b, a) == 0
  {
  }

  /**
   * Whatever the files do between stat and read: the bytes and files handed out never exceed the budget,
   * no content exceeds the file limit, and all completed reads together take at most one byte too many.
   */
  lemma {:induction false} ReadsStayWithinBudget(b: Budget, attempts: seq<Attempt>)
    requires AllSane(attempts)
    ensures ReturnedBytes(b, attempts)
            + BudgetAfter(b, attempts).remainingTotalBytes as int <= b.remainingTotalBytes as int
    ensures ReturnedFiles(b, attempts) + BudgetAfter(b, attempts).remainingFiles as int <= b.remainingFiles as int
    ensures forall i :: 0 <= i < |attempts| ==> ContentSize(OutcomeAt(b, attempts, i)) <= b.maxFileBytes as int
    ensures BudgetAfter(b, attempts).maxFileBytes == b.maxFileBytes
    ensures TransferredBytes(b, attempts)
            + BudgetAfter(b, attempts).remainingTotalBytes as int <= b.remainingTotalBytes as int
            || (TransferredBytes(b, attempts) == b.remainingTotalBytes as int + 1
                && BudgetAfter(b, attempts).remainingTotalBytes == 0)
  {
    hide OutcomeOf, Charged, Transferred;
    if attempts != [] {
      var last := |attempts| - 1;
      var before := attempts[..last];
      ReadsStayWithinBudget(b, before);
      OneAttempt(BudgetAfter(b, before), attempts[last]);
      forall i | 0 <= i < |attempts| ensures ContentSize(OutcomeAt(b, attempts, i)) <= b.maxFileBytes as int {
        if i < last {
          assert before[..i] == attempts[..i] && before[i] == attempts[i];
          assert OutcomeAt(b, before, i) == OutcomeAt(b, attempts, i);
        }
      }
    }
  }

  // ---------- When a whole batch is read ----------

  /** A readable file that keeps the length it was opened with. */
  predicate Steady(a: Attempt) {
    && a.normalPath && !a.lateBefore && !a.lateAfter && !a.readFails && a.utf8
    && a.handle.OpenFile? && a.handle.regular && |a.bytes| <= U64_MAX
    && a.handle.statLength == Some(|a.bytes| as u64)
  }

  ghost predicate AllSteady(attempts: seq<Attempt>) {
    forall i :: 0 <= i < |attempts| ==> Steady(attempts[i])
  }

  function SizeSum(attempts: seq<Attempt>): nat {
    if attempts == [] then 0 else SizeSum(attempts[..|attempts| - 1]) + |attempts[|attempts| - 1].bytes|
  }

  /** Some budget is left before each file, and the file fits into it. */
  predicate FitsAt(b: Budget, attempts: seq<Attempt>, i: nat)
    requires i < |attempts|
  {
    && i < b.remainingFiles as int && SizeSum(attempts[..i]) < b.remainingTotalBytes as int
    && |attempts[i].bytes| <= b.maxFileBytes as int
    && SizeSum(attempts[..i]) + |attempts[i].bytes| <= b.remainingTotalBytes as int
  }

  lemma {:induction false} BudgetLeft(b: Budget, attempts: seq<Attempt>)
    requires AllSteady(attempts)
    requires forall i :: 0 <= i < |attempts| ==> FitsAt(b, attempts, i)
    ensures SizeSum(attempts) <= b.remainingTotalBytes as int && |attempts| <= b.remainingFiles as int
    ensures BudgetAfter(b, attempts) == Budget(b.maxFileBytes, b.remainingTotalBytes - SizeSum(attempts) as u64,
                                               b.remainingFiles - |attempts| as u64)
  {
    if attempts != [] {
      var last := |attempts| - 1;
      PrefixFits(b, attempts, last);
      BudgetLeft(b, attempts[..last]);
      assert FitsAt(b, attempts, last) && Steady(attempts[last]);
    }
  }

  lemma PrefixFits(b: Budget, attempts: seq<Attempt>, k: nat)
    requires k <= |attempts| && forall i :: 0 <= i < k ==> FitsAt(b, attempts, i)
    ensures forall i :: 0 <= i < k ==> FitsAt(b, attempts[..k], i)
  {
    forall i | 0 <= i < k ensures FitsAt(b, attempts[..k], i) {
      assert FitsAt(b, attempts, i) && attempts[..k][..i] == attempts[..i];
    }
  }

  /**
   * Of files that hold still, the first so many are all read exactly when each fits at its turn. That asks for
   * some budget to be left: after the last byte is spent even an empty file is refused.
   */
  lemma {:induction false} AllReadIffTheyFit(b: Budget, attempts: seq<Attempt>)
    requires AllSteady(attempts)
    ensures (forall i :: 0 <= i < |attempts| ==> OutcomeAt(b, attempts, i).Content?)
            <==> (forall i :: 0 <= i < |attempts| ==> FitsAt(b, attempts, i))
  {
    if attempts != [] {
      var last := |attempts| - 1;
      var before := attempts[..last];
      AllReadIffTheyFit(b, before);
      forall i | 0 <= i < last
        ensures OutcomeAt(b, before, i) == OutcomeAt(b, attempts, i)
                && (FitsAt(b, before, i) <==> FitsAt(b, attempts, i))
      {
        assert before[..i] == attempts[..i] && before[i] == attempts[i];
      }
      assert (forall i :: 0 <= i < |before| ==> OutcomeAt(b, before, i).Content?)
        <==> (forall i :: 0 <= i < last ==> OutcomeAt(b, attempts, i).Content?);
      if forall i :: 0 <= i < |before| ==> FitsAt(b, before, i) {
        BudgetLeft(b, before);
        LastReadIffItFits(b, attempts);
      }
    }
  }

  lemma LastReadIffItFits(b: Budget, attempts: seq<Attempt>)
    requires attempts != [] && AllSteady(attempts)
    requires var before := attempts[..|attempts| - 1];
             && SizeSum(before) <= b.remainingTotalBytes as int && |before| <= b.remainingFiles as int
             && BudgetAfter(b, before) == Budget(b.maxFileBytes, b.remainingTotalBytes - SizeSum(before) as u64,
                                                 b.remainingFiles - |before| as u64)
    ensures OutcomeAt(b, attempts, |attempts| - 1).Content? <==> FitsAt(b, attempts, |attempts| - 1)
  {
    assert Steady(attempts[|attempts| - 1]);
  }
}
