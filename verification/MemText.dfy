/** From the text of `/proc/meminfo` to what the memory instruments are told. */
module MemText {
  import opened Wrappers
  import opened Integers
  import opened Text
  import opened KeyedLines
  import opened Framework
  import opened Names
  import opened Samples
  import MemInfoFile
  import MemMetrics

  /** The number a memory metric stands for, in natural numbers: KiB fields or pages times page size. */
  function MemKb(fields: seq<Field<MemInfoFile.Key>>, m: Metric): nat {
    match m
    case MemTotalBytes => LastU64(ValuesOf(fields, MemInfoFile.MemTotal))
    case MemFreeBytes => LastU64(ValuesOf(fields, MemInfoFile.MemFree))
    case MemAvailableBytes => LastU64(ValuesOf(fields, MemInfoFile.MemAvailable))
    case SwapTotalBytes => LastU64(ValuesOf(fields, MemInfoFile.SwapTotal))
    case SwapFreeBytes => LastU64(ValuesOf(fields, MemInfoFile.SwapFree))
    case HugePagesTotalBytes =>
      Product(LastU64(ValuesOf(fields, MemInfoFile.HugePagesTotal)), LastU64(ValuesOf(fields, MemInfoFile.HugePageSize)))
    case HugePagesFreeBytes =>
      Product(LastU64(ValuesOf(fields, MemInfoFile.HugePagesFree)), LastU64(ValuesOf(fields, MemInfoFile.HugePageSize)))
    case _ => 0
  }

  /** What a number of KiB is reported as: 1024 times it, modulo 2^64. */
  function WrappedBytes(kb: nat): u64 {
    Wrapped(Product(kb, 1024))
  }

  lemma NumberIsKey(fields: seq<Field<MemInfoFile.Key>>, m: Metric)
    requires FamilyOf(m) == Memory
    ensures MemMetrics.NumberOf(MemInfoFile.MemInfoOf(fields), m) == U64(WrappedBytes(MemKb(fields, m)))
  {
    var mem := MemInfoFile.MemInfoOf(fields);
    if m == HugePagesTotalBytes {
      WrappingMulTwice(mem.hugePagesTotal, mem.hugePageSizeKb, 1024);
    } else if m == HugePagesFreeBytes {
      WrappingMulTwice(mem.hugePagesFree, mem.hugePageSizeKb, 1024);
    }
  }

  lemma MemObserved(host: KeyValue, mem: MemInfoFile.MemInfo, m: Metric)
    requires FamilyOf(m) == Memory
    ensures Observed(MemMetrics.Read(host, Some(mem)), Name(m), TypeU64)
         == [Observation(Name(m), MemMetrics.NumberOf(mem, m), [host])]
  {
    ObservedOfFamily([host], MemMetrics.Numbers(mem), m, TypeU64);
  }

  /** What the fields of a file are worth to the instrument of a memory metric. */
  function ReportOf(host: KeyValue, m: Metric, fields: seq<Field<MemInfoFile.Key>>): seq<Observation> {
    if MemInfoFile.Fails(fields) then []
    else [Observation(Name(m), U64(WrappedBytes(MemKb(fields, m))), [host])]
  }

  function Report(host: KeyValue, m: Metric, content: Bytes): seq<Observation> {
    ReportOf(host, m, MemInfoFile.Fields(content))
  }

  lemma FieldsToObservation(host: KeyValue, fields: seq<Field<MemInfoFile.Key>>, m: Metric)
    requires FamilyOf(m) == Memory
    ensures Observed(MemMetrics.Read(host, MemInfoFile.Reading(fields)), Name(m), TypeU64) == ReportOf(host, m, fields)
  {
    if MemInfoFile.Fails(fields) {
      assert All([]) == [];
    } else {
      MemObserved(host, MemInfoFile.MemInfoOf(fields), m);
      NumberIsKey(fields, m);
    }
  }

  /**
   Any content of meminfo: nothing if a required key has no number, else each memory instrument is told once,
   for the host, 1024 times the last value of its key (huge pages: pages times page size), modulo 2^64.
   */
  lemma TextToObservation(host: KeyValue, content: Bytes, m: Metric)
    requires FamilyOf(m) == Memory
    ensures Observed(MemMetrics.Read(host, MemInfoFile.Reading(MemInfoFile.Fields(content))), Name(m), TypeU64)
         == Report(host, m, content)
  {
    FieldsToObservation(host, MemInfoFile.Fields(content), m);
  }

  // ------------------------------------------------------------------ free at most total

  /** The KiB that fit 64 bits as bytes. */
  const KB_LIMIT: nat := 0x40_0000_0000_0000

  predicate IsFree(m: Metric) {
    m == MemFreeBytes || m == SwapFreeBytes || m == HugePagesFreeBytes
  }

  /** The total a free size is part of. */
  function TotalOf(m: Metric): Metric {
    match m
    case SwapFreeBytes => SwapTotalBytes
    case HugePagesFreeBytes => HugePagesTotalBytes
    case _ => MemTotalBytes
  }

  function BytesOf(n: Number): nat {
    match n case U64(u) => u case F64(_) => 0
  }

  /** Wrapping the bytes is wrapping the KiB. */
  lemma WrapsAtKbLimit(kb: nat)
    ensures WrappedBytes(kb) == (kb % KB_LIMIT) * 1024
  {
    var q, r := kb / KB_LIMIT, kb % KB_LIMIT;
    assert Product(kb, 1024) == r * 1024 + q * U64_LIMIT;
    MultiplesVanish(r * 1024, q);
  }

  lemma BytesOfNumber(fields: seq<Field<MemInfoFile.Key>>, m: Metric)
    requires FamilyOf(m) == Memory
    ensures BytesOf(MemMetrics.NumberOf(MemInfoFile.MemInfoOf(fields), m)) == WrappedBytes(MemKb(fields, m))
  {
    NumberIsKey(fields, m);
  }

  lemma OrderOfWrapped(a: nat, b: nat)
    ensures WrappedBytes(a) <= WrappedBytes(b) <==> a % KB_LIMIT <= b % KB_LIMIT
  {
    WrapsAtKbLimit(a);
    WrapsAtKbLimit(b);
  }

  lemma OrderOfBytes(fields: seq<Field<MemInfoFile.Key>>, a: Metric, b: Metric)
    requires FamilyOf(a) == FamilyOf(b) == Memory
    ensures var mem := MemInfoFile.MemInfoOf(fields);
            BytesOf(MemMetrics.NumberOf(mem, a)) <= BytesOf(MemMetrics.NumberOf(mem, b))
            <==> MemKb(fields, a) % KB_LIMIT <= MemKb(fields, b) % KB_LIMIT
  {
    BytesOfNumber(fields, a);
    BytesOfNumber(fields, b);
    OrderOfWrapped(MemKb(fields, a), MemKb(fields, b));
  }

  /** The reported sizes are in order exactly when those of the file are in order after they wrapped. */
  lemma OrderHoldsIff(fields: seq<Field<MemInfoFile.Key>>, free: Metric)
    requires IsFree(free)
    ensures var mem := MemInfoFile.MemInfoOf(fields);
            BytesOf(MemMetrics.NumberOf(mem, free)) <= BytesOf(MemMetrics.NumberOf(mem, TotalOf(free)))
            <==> MemKb(fields, free) % KB_LIMIT <= MemKb(fields, TotalOf(free)) % KB_LIMIT
  {
    OrderOfBytes(fields, free, TotalOf(free));
  }

  /** Free at most total in the file is free at most total in the report. */
  predicate OrderIsKept(total: nat) {
    forall free: nat :: free <= total ==> WrappedBytes(free) <= WrappedBytes(total)
  }

  /** That holds of a total, whatever part of it is free, exactly if it fits or is the last before it wraps again. */
  lemma OrderIsKeptIff(total: nat)
    ensures OrderIsKept(total) <==> total < KB_LIMIT || total % KB_LIMIT == KB_LIMIT - 1
  {
    WrapsAtKbLimit(total);
    if total < KB_LIMIT || total % KB_LIMIT == KB_LIMIT - 1 {
      forall free: nat | free <= total
        ensures WrappedBytes(free) <= WrappedBytes(total)
      {
        WrapsAtKbLimit(free);
        if total < KB_LIMIT {
          ModOfSmall(free, KB_LIMIT);
          ModOfSmall(total, KB_LIMIT);
        }
      }
    } else {
      WrapsAtKbLimit(KB_LIMIT - 1);
      ModOfSmall(KB_LIMIT - 1, KB_LIMIT);
      assert KB_LIMIT - 1 <= total && WrappedBytes(KB_LIMIT - 1) > WrappedBytes(total);
    }
  }

  /** A file with these two sizes. */
  function TwoSizes(total: nat, free: nat): Bytes {
    Join([PrintKb("MemTotal", "       ", total), PrintKb("MemFree", "        ", free)])
  }

  lemma KeysAreTokens()
    ensures IsToken("MemTotal") && ':' !in "MemTotal" && MemInfoFile.KeyOf("MemTotal") == MemInfoFile.MemTotal
    ensures IsToken("MemFree") && ':' !in "MemFree" && MemInfoFile.KeyOf("MemFree") == MemInfoFile.MemFree
  {
  }

  lemma FieldsOfTwoSizes(total: nat, free: nat)
    ensures MemInfoFile.Fields(TwoSizes(total, free))
         == [Field(MemInfoFile.MemTotal, Some(Decimal(total))), Field(MemInfoFile.MemFree, Some(Decimal(free)))]
  {
    KeysAreTokens();
    FieldsOfTwo("MemTotal", "       ", total, "MemFree", "        ", free);
  }

  lemma FieldsOfTwo(k: Bytes, kGap: Bytes, kKb: nat, l: Bytes, lGap: Bytes, lKb: nat)
    requires IsToken(k) && ':' !in k && Blank(kGap) && '\n' !in kGap
    requires IsToken(l) && ':' !in l && Blank(lGap) && '\n' !in lGap
    ensures MemInfoFile.Fields(Join([PrintKb(k, kGap, kKb), PrintKb(l, lGap, lKb)]))
         == [Field(MemInfoFile.KeyOf(k), Some(Decimal(kKb))), Field(MemInfoFile.KeyOf(l), Some(Decimal(lKb)))]
  {
    PrintedKb(MemInfoFile.KeyOf, k, kGap, kKb);
    PrintedKb(MemInfoFile.KeyOf, l, lGap, lKb);
    TableOfTwo(
      MemInfoFile.Row, PrintKb(k, kGap, kKb), PrintKb(l, lGap, lKb),
      Field(MemInfoFile.KeyOf(k), Some(Decimal(kKb))), Field(MemInfoFile.KeyOf(l), Some(Decimal(lKb))));
  }

  lemma ReadingOfTwoFields(a: Bytes, b: Bytes)
    requires ParseU64(Some(a)).Some? && ParseU64(Some(b)).Some?
    ensures var fields := [Field(MemInfoFile.MemTotal, Some(a)), Field(MemInfoFile.MemFree, Some(b))];
            && !MemInfoFile.Fails(fields)
            && MemKb(fields, MemTotalBytes) == ParseU64(Some(a)).value
            && MemKb(fields, MemFreeBytes) == ParseU64(Some(b)).value
  {
    LastOfTwo(Field(MemInfoFile.MemTotal, Some(a)), Field(MemInfoFile.MemFree, Some(b)), MemInfoFile.MemTotal);
    LastOfTwo(Field(MemInfoFile.MemTotal, Some(a)), Field(MemInfoFile.MemFree, Some(b)), MemInfoFile.MemFree);
  }

  lemma ReadingOfTwoSizes(total: u64, free: u64)
    ensures var fields := MemInfoFile.Fields(TwoSizes(total, free));
            !MemInfoFile.Fails(fields) && MemKb(fields, MemTotalBytes) == total && MemKb(fields, MemFreeBytes) == free
  {
    FieldsOfTwoSizes(total, free);
    ParseDecimal(total);
    ParseDecimal(free);
    ReadingOfTwoFields(Decimal(total), Decimal(free));
  }

  function Digit(d: nat): byte
    requires d < 10
  {
    ('0' as int + d) as char
  }

  lemma ThreeMore(n: nat, m: nat, a: nat, b: nat, c: nat)
    requires n > 0 && a < 10 && b < 10 && c < 10 && m == n * 1000 + a * 100 + b * 10 + c
    ensures Decimal(m) == Decimal(n) + [Digit(a), Digit(b), Digit(c)]
  {
    var k := n * 10 + a;
    DecimalSnoc(n, k, Digit(a));
    DecimalSnoc(k, k * 10 + b, Digit(b));
    DecimalSnoc(k * 10 + b, m, Digit(c));
  }

  lemma FirstDigits(n: nat, m: nat)
    requires n == 18 && m == 18_014
    ensures Decimal(m) == "18014"
  {
    assert Decimal(n) == "18";
    ThreeMore(n, m, 0, 1, 4);
  }

  lemma MoreDigits(n: nat, k: nat, m: nat)
    requires Decimal(n) == "18014" && n == 18_014 && k == 18_014_398 && m == 18_014_398_509
    ensures Decimal(m) == "18014398509"
  {
    ThreeMore(n, k, 3, 9, 8);
    ThreeMore(k, m, 5, 0, 9);
  }

  lemma LastDigits(n: nat, k: nat, m: nat)
    requires Decimal(n) == "18014398509"
    requires n == 18_014_398_509 && k == 18_014_398_509_481 && m == KB_LIMIT
    ensures Decimal(m) == "18014398509481984"
  {
    ThreeMore(n, k, 4, 8, 1);
    ThreeMore(k, m, 9, 8, 4);
  }

  lemma LimitPrinted(a: nat, b: nat, limit: nat)
    requires a == 18_014 && b == 18_014_398_509 && limit == KB_LIMIT
    ensures Decimal(limit) == "18014398509481984"
  {
    FirstDigits(18, a);
    MoreDigits(a, 18_014_398, b);
    LastDigits(b, 18_014_398_509_481, limit);
  }

  /**
   A file that says `MemTotal: 18014398509481984 kB` and `MemFree: 1 kB` parses, and is reported with a total of
   0 bytes of which 1024 are free.
   */
  lemma ReportOutOfOrder(host: KeyValue, total: u64)
    requires total == KB_LIMIT
    ensures Decimal(total) == "18014398509481984"
    ensures MemInfoFile.Reading(MemInfoFile.Fields(TwoSizes(total, 1))).Some?
    ensures Report(host, MemTotalBytes, TwoSizes(total, 1)) == [Observation(Name(MemTotalBytes), U64(0), [host])]
    ensures Report(host, MemFreeBytes, TwoSizes(total, 1)) == [Observation(Name(MemFreeBytes), U64(1024), [host])]
  {
    LimitPrinted(18_014, 18_014_398_509, total);
    ReadingOfTwoSizes(total, 1);
    WrapsAtKbLimit(total);
    WrapsAtKbLimit(1);
  }
}
