/**
  The names of temporary files in a metadata directory: how they are generated,
  and the parsers that recognise them when they are left behind.
 */
module TemporaryNames {
  import opened Strings
  import opened Wrappers

  // ------------------------------------------------------------------------- numerals

  /** A number in decimal, without leading zeros. */
  function Decimal(n: nat): (s: string)
    ensures s != "" && Digits(s)
  {
    if n < 10 then [DigitChar(n)] else Decimal(n / 10) + [DigitChar(n % 10)]
  }

  /** A number in lower-case hexadecimal, without leading zeros. */
  function Hexadecimal(n: nat): (s: string)
    ensures s != "" && HexDigits(s)
  {
    if n < 16 then [DigitChar(n)] else Hexadecimal(n / 16) + [DigitChar(n % 16)]
  }

  lemma {:induction false} DecimalInjective(m: nat, n: nat)
    requires Decimal(m) == Decimal(n)
    ensures m == n
  {
    var s := Decimal(m);
    assert DigitChar(m % 10) == s[|s| - 1] == DigitChar(n % 10);
    if m >= 10 && n >= 10 {
      assert Decimal(m / 10) == s[..|s| - 1] == Decimal(n / 10);
      DecimalInjective(m / 10, n / 10);
    }
  }

  lemma {:induction false} HexadecimalInjective(m: nat, n: nat)
    requires Hexadecimal(m) == Hexadecimal(n)
    ensures m == n
  {
    var s := Hexadecimal(m);
    assert DigitChar(m % 16) == s[|s| - 1] == DigitChar(n % 16);
    if m >= 16 && n >= 16 {
      assert Hexadecimal(m / 16) == s[..|s| - 1] == Hexadecimal(n / 16);
      HexadecimalInjective(m / 16, n / 16);
    }
  }

  // ------------------------------------------------------------------ temporary names

  /** `.{operation}.{process}.{epoch in hex}.{counter}.tmp` */
  function TemporaryName(operation: string, process: nat, epoch: nat, counter: nat): (name: string)
  {
    Assemble(operation, Decimal(process), Hexadecimal(epoch), Decimal(counter))
  }

  function Assemble(operation: string, process: string, epoch: string, counter: string): string
  {
    "." + (operation + "." + process + "." + epoch + "." + counter) + ".tmp"
  }

  /** The older form, without an epoch. */
  function LegacyTemporaryName(operation: string, process: nat, counter: nat): (name: string)
  {
    AssembleLegacy(operation, Decimal(process), Decimal(counter))
  }

  function AssembleLegacy(operation: string, process: string, counter: string): string
  {
    "." + (operation + "." + process + "." + counter) + ".tmp"
  }

  /** What stands between the leading dot and `.tmp`. */
  function Stem(name: string): (r: Option<string>)
    ensures r.Some? ==> name == "." + r.value + ".tmp"
  {
    var rest :- StripPrefix(name, ".");
    StripSuffix(rest, ".tmp")
  }

  function TemporaryOperation(name: string): (r: Option<string>)
  {
    var stem :- Stem(name);
    var (prefix1, counter) :- RSplit(stem);
    var (prefix2, epoch) :- RSplit(prefix1);
    var (operation, process) :- RSplit(prefix2);
    if && operation != "" && Digits(process)
       && epoch != "" && HexDigits(epoch)
       && counter != "" && Digits(counter)
    then Some(operation) else None
  }

  function LegacyTemporaryOperation(name: string): (r: Option<string>)
  {
    var stem :- Stem(name);
    var (prefix, counter) :- RSplit(stem);
    var (operation, process) :- RSplit(prefix);
    if operation != "" && Digits(process) && counter != "" && Digits(counter) then Some(operation) else None
  }

  predicate IsJournalTemporary(name: string)
  {
    match TemporaryOperation(name)
    case Some(operation) => EndsWith(operation, ".json")
    case None =>
      match LegacyTemporaryOperation(name)
      case Some(operation) => EndsWith(operation, ".json")
      case None => false
  }

  predicate IsOperationTemporary(name: string)
  {
    TemporaryOperation(name).Some? || LegacyTemporaryOperation(name).Some?
  }

  lemma StemOf(s: string)
    ensures Stem("." + s + ".tmp") == Some(s)
  {
    var name := "." + s + ".tmp";
    assert name[1..] == s + ".tmp";
    assert (s + ".tmp")[|s|..] == ".tmp";
    assert (s + ".tmp")[..|s|] == s;
  }

  lemma NumeralsHaveNoDot(s: string)
    requires HexDigits(s) || Digits(s)
    ensures '.' !in s && '-' !in s
  {
  }

  /** A name parses exactly when it is assembled from an operation and three numerals. */
  lemma ParsesExactly(name: string, operation: string)
    ensures TemporaryOperation(name) == Some(operation) <==>
      operation != "" && exists p, e, c | Digits(p) && HexDigits(e) && e != "" && Digits(c) && c != "" ::
        name == Assemble(operation, p, e, c)
  {
    if TemporaryOperation(name) == Some(operation) {
      var stem := Stem(name).value;
      var (prefix1, c) := RSplit(stem).value;
      var (prefix2, e) := RSplit(prefix1).value;
      var (_, p) := RSplit(prefix2).value;
      assert name == Assemble(operation, p, e, c);
    }
    if operation != "" {
      forall p, e, c | Digits(p) && HexDigits(e) && e != "" && Digits(c) && c != "" && name == Assemble(operation, p, e, c)
        ensures TemporaryOperation(name) == Some(operation)
      {
        AssembledParses(operation, p, e, c);
      }
    }
  }

  lemma AssembledParses(operation: string, p: string, e: string, c: string)
    requires operation != "" && Digits(p) && HexDigits(e) && e != "" && Digits(c) && c != ""
    ensures TemporaryOperation(Assemble(operation, p, e, c)) == Some(operation)
    ensures RSplit(operation + "." + p + "." + e + "." + c) == Some((operation + "." + p + "." + e, c))
    ensures RSplit(operation + "." + p + "." + e) == Some((operation + "." + p, e))
    ensures RSplit(operation + "." + p) == Some((operation, p))
  {
    StemOf(operation + "." + p + "." + e + "." + c);
    NumeralsHaveNoDot(p);
    NumeralsHaveNoDot(e);
    NumeralsHaveNoDot(c);
    SplitsAtLastDot(operation + "." + p + "." + e, c);
    SplitsAtLastDot(operation + "." + p, e);
    SplitsAtLastDot(operation, p);
  }

  /** Every generated name parses back to its operation. */
  lemma GeneratedParses(operation: string, process: nat, epoch: nat, counter: nat)
    requires operation != ""
    ensures TemporaryOperation(TemporaryName(operation, process, epoch, counter)) == Some(operation)
    ensures |TemporaryName(operation, process, epoch, counter)| > |operation|
  {
    hide Decimal, Hexadecimal, TemporaryOperation, RSplit;
    AssembledParses(operation, Decimal(process), Hexadecimal(epoch), Decimal(counter));
  }

  /** Generated names determine everything they were generated from. */
  lemma GeneratedInjective(o1: string, p1: nat, e1: nat, c1: nat, o2: string, p2: nat, e2: nat, c2: nat)
    requires o1 != "" && o2 != ""
    requires TemporaryName(o1, p1, e1, c1) == TemporaryName(o2, p2, e2, c2)
    ensures o1 == o2 && p1 == p2 && e1 == e2 && c1 == c2
  {
    hide Decimal, Hexadecimal, TemporaryOperation, RSplit, Stem;
    var p, e, c := Decimal(p1), Hexadecimal(e1), Decimal(c1);
    var q, f, d := Decimal(p2), Hexadecimal(e2), Decimal(c2);
    AssembledParses(o1, p, e, c);
    AssembledParses(o2, q, f, d);
    StemOf(o1 + "." + p + "." + e + "." + c);
    StemOf(o2 + "." + q + "." + f + "." + d);
    DecimalInjective(p1, p2);
    HexadecimalInjective(e1, e2);
    DecimalInjective(c1, c2);
  }

  lemma LegacyParsesExactly(name: string, operation: string)
    ensures LegacyTemporaryOperation(name) == Some(operation) <==>
      operation != "" && exists p, c | Digits(p) && Digits(c) && c != "" :: name == AssembleLegacy(operation, p, c)
  {
    if LegacyTemporaryOperation(name) == Some(operation) {
      var stem := Stem(name).value;
      var (prefix, c) := RSplit(stem).value;
      var (_, p) := RSplit(prefix).value;
      assert name == AssembleLegacy(operation, p, c);
    }
    if operation != "" {
      forall p, c | Digits(p) && Digits(c) && c != "" && name == AssembleLegacy(operation, p, c)
        ensures LegacyTemporaryOperation(name) == Some(operation)
      {
        LegacyAssembledParses(operation, p, c);
      }
    }
  }

  lemma LegacyAssembledParses(operation: string, p: string, c: string)
    requires operation != "" && Digits(p) && Digits(c) && c != ""
    ensures LegacyTemporaryOperation(AssembleLegacy(operation, p, c)) == Some(operation)
    ensures EndsWith(operation, ".json") ==> TemporaryOperation(AssembleLegacy(operation, p, c)).None?
  {
    StemOf(operation + "." + p + "." + c);
    NumeralsHaveNoDot(p);
    NumeralsHaveNoDot(c);
    SplitsAtLastDot(operation + "." + p, c);
    SplitsAtLastDot(operation, p);
    if EndsWith(operation, ".json") {
      var base := operation[..|operation| - 5];
      assert operation == base + "." + "json";
      SplitsAtLastDot(base, "json");
      assert "json"[0] in "json" && !IsDigit("json"[0]);
    }
  }

  /**
    An older name of a journal operation is read by the older parser only: its
    `json` stands where the newer form has the process number.
   */
  lemma LegacyJournalParses(operation: string, process: nat, counter: nat)
    requires EndsWith(operation, ".json")
    ensures var name := LegacyTemporaryName(operation, process, counter);
            TemporaryOperation(name).None? && LegacyTemporaryOperation(name) == Some(operation) && IsJournalTemporary(name)
  {
    hide Decimal, TemporaryOperation, LegacyTemporaryOperation, AssembleLegacy;
    LegacyAssembledParses(operation, Decimal(process), Decimal(counter));
  }

  /** A name is that of a journal operation exactly if it has either form, for an operation on a `.json` record. */
  lemma JournalTemporaryExactly(name: string)
    ensures IsJournalTemporary(name) <==>
      exists operation | EndsWith(operation, ".json") ::
        TemporaryOperation(name) == Some(operation) || LegacyTemporaryOperation(name) == Some(operation)
  {
    forall operation | EndsWith(operation, ".json") && LegacyTemporaryOperation(name) == Some(operation)
      ensures TemporaryOperation(name).None?
    {
      LegacyParsesExactly(name, operation);
      var p, c :| Digits(p) && Digits(c) && c != "" && name == AssembleLegacy(operation, p, c);
      LegacyAssembledParses(operation, p, c);
    }
    hide TemporaryOperation, LegacyTemporaryOperation, EndsWith;
  }

  // --------------------------------------------------------------------- owner probes

  const PROBE_PREFIX := ".autospec-owner-"

  function OwnerProbeName(process: nat, epoch: nat, counter: nat): (name: string)
  {
    ProbeName(Decimal(process), Hexadecimal(epoch), Decimal(counter))
  }

  predicate IsOwnerProbe(name: string)
  {
    match StripPrefix(name, PROBE_PREFIX)
    case None => false
    case Some(rest) => IsProbeTail(Split(rest, '-'))
  }

  /** Process, epoch and counter; or, in the older form, process and counter. */
  predicate IsProbeTail(parts: seq<string>)
  {
    && 2 <= |parts| <= 3
    && parts[0] != "" && Digits(parts[0])
    && (|parts| == 3 ==> parts[1] != "" && HexDigits(parts[1]))
    && parts[|parts| - 1] != "" && Digits(parts[|parts| - 1])
  }

  lemma GeneratedProbeIsProbe(process: nat, epoch: nat, counter: nat)
    ensures IsOwnerProbe(OwnerProbeName(process, epoch, counter))
  {
    hide Decimal, Hexadecimal, IsOwnerProbe;
    ProbeOfThree(Decimal(process), Hexadecimal(epoch), Decimal(counter));
  }

  function ProbeName(p: string, e: string, c: string): string
  {
    PROBE_PREFIX + (p + "-" + e + "-" + c)
  }

  /** The older form, without an epoch. */
  function LegacyProbeName(p: string, c: string): string
  {
    PROBE_PREFIX + (p + "-" + c)
  }

  predicate Numeral(s: string) { s != "" && Digits(s) }
  predicate HexNumeral(s: string) { s != "" && HexDigits(s) }

  /** A name is that of a probe exactly if it is the prefix with two or three numerals. */
  lemma ProbesExactly(name: string)
    ensures IsOwnerProbe(name) <==>
      || (exists p, c | Numeral(p) && Numeral(c) :: name == LegacyProbeName(p, c))
      || (exists p, e, c | Numeral(p) && HexNumeral(e) && Numeral(c) :: name == ProbeName(p, e, c))
  {
    hide Digits, HexDigits, Split;
    if IsOwnerProbe(name) {
      var rest := StripPrefix(name, PROBE_PREFIX).value;
      var parts := Split(rest, '-');
      ProbeTail(rest);
      if |parts| == 2 {
        assert Numeral(parts[0]) && Numeral(parts[1]) && name == LegacyProbeName(parts[0], parts[1]);
      } else {
        assert Numeral(parts[0]) && HexNumeral(parts[1]) && Numeral(parts[2]) && name == ProbeName(parts[0], parts[1], parts[2]);
      }
    }
    forall p, c | Numeral(p) && Numeral(c) && name == LegacyProbeName(p, c)
      ensures IsOwnerProbe(name)
    {
      ProbeOfTwo(p, c);
    }
    forall p, e, c | Numeral(p) && HexNumeral(e) && Numeral(c) && name == ProbeName(p, e, c)
      ensures IsOwnerProbe(name)
    {
      ProbeOfThree(p, e, c);
    }
  }

  lemma ProbeOfTwo(p: string, c: string)
    requires Numeral(p) && Numeral(c)
    ensures IsOwnerProbe(LegacyProbeName(p, c))
  {
    hide Split;
    NumeralsHaveNoDot(p);
    NumeralsHaveNoDot(c);
    SplitsAtFirst(p, '-', c);
    NoSeparatorNoSplit(c, '-');
    assert StripPrefix(LegacyProbeName(p, c), PROBE_PREFIX).value == p + "-" + c;
  }

  lemma ProbeOfThree(p: string, e: string, c: string)
    requires Numeral(p) && HexNumeral(e) && Numeral(c)
    ensures IsOwnerProbe(ProbeName(p, e, c))
  {
    hide Split;
    NumeralsHaveNoDot(p);
    NumeralsHaveNoDot(e);
    NumeralsHaveNoDot(c);
    SplitsAtFirst(p, '-', e + "-" + c);
    SplitsAtFirst(e, '-', c);
    NoSeparatorNoSplit(c, '-');
    assert p + "-" + e + "-" + c == p + "-" + (e + "-" + c);
    assert StripPrefix(ProbeName(p, e, c), PROBE_PREFIX).value == p + "-" + e + "-" + c;
  }

  /** The two or three parts joined again. */
  lemma ProbeTail(rest: string)
    requires IsProbeTail(Split(rest, '-'))
    ensures var parts := Split(rest, '-');
      rest == if |parts| == 2 then parts[0] + "-" + parts[1] else parts[0] + "-" + parts[1] + "-" + parts[2]
  {
    SplitJoins(rest, '-');
  }

  // --------------------------------------------------------------------- record names

  predicate ValidExecutionId(id: string)
  {
    && 1 <= |id| <= 63
    && (IsLower(id[0]) || IsDigit(id[0]))
    && forall c | c in id :: IsLower(c) || IsDigit(c) || c == '-'
  }

  /** One to 63 lower-case ASCII letters, digits and dashes, the first of them no dash. */
  lemma ExecutionIdExactly(id: string)
    ensures ValidExecutionId(id) <==>
      && 0 < |id| < 64 && id[0] != '-'
      && forall c | c in id :: c == '-' || 48 <= c as int <= 57 || 97 <= c as int <= 122
  {
    assert id != "" ==> id[0] in id;
  }

  function JournalName(id: string): string { id + ".json" }
  function LeaseName(id: string): string { id + ".lease" }

  /** Neither a record nor a lease of an execution is ever taken for residue. */
  lemma RecordsAreNotResidue(id: string, name: string)
    requires ValidExecutionId(id) && (name == JournalName(id) || name == LeaseName(id))
    ensures !IsOperationTemporary(name) && !IsJournalTemporary(name) && !IsOwnerProbe(name)
  {
    assert name[0] == id[0] != '.';
    assert StripPrefix(name, ".").None? && StripPrefix(name, PROBE_PREFIX).None?;
  }

  /** Distinct executions have distinct record names, and a record is no lease. */
  lemma RecordNamesInjective(a: string, b: string)
    ensures JournalName(a) == JournalName(b) ==> a == b
    ensures JournalName(a) != LeaseName(b)
  {
    assert JournalName(a)[..|a|] == a && JournalName(b)[..|b|] == b;
    assert JournalName(a)[|JournalName(a)| - 1] == 'n';
    assert LeaseName(b)[|LeaseName(b)| - 1] == 'e';
  }
}
