/** Resource requirements as text: the printer of the command line and the parser it is meant to
    feed. */
module Resources {
  import opened Wrappers
  import opened ObjectKeys

  const U64_MAX := 0xffff_ffff_ffff_ffff
  const I32_MIN := -0x8000_0000
  const I32_MAX := 0x7fff_ffff

  type U64 = n: int | 0 <= n <= U64_MAX
  type I32 = n: int | I32_MIN <= n <= I32_MAX

  datatype Requirement = Requirement(cpu: U64, memory: U64, gpu: I32)

  // ---- Numbers ---------------------------------------------------------------------------

  predicate IsDigit(c: char) { '0' <= c <= '9' }

  function DigitChar(d: nat): char
    requires d < 10
    ensures IsDigit(DigitChar(d))
  {
    '0' + d as char
  }

  function DigitValue(c: char): nat { if IsDigit(c) then (c - '0') as nat else 0 }

  predicate Numeral(s: string) { s != "" && forall i :: 0 <= i < |s| ==> IsDigit(s[i]) }

  function Value(s: string): nat
  {
    if s == "" then 0 else Value(s[..|s| - 1]) * 10 + DigitValue(s[|s| - 1])
  }

  function Digits(n: nat): (s: string)
    ensures Numeral(s)
  {
    if n < 10 then [DigitChar(n)] else Digits(n / 10) + [DigitChar(n % 10)]
  }

  lemma {:induction false} ValueOfDigits(n: nat)
    ensures Value(Digits(n)) == n
  {
    if n < 10 {
      assert Digits(n)[..0] == "";
    } else {
      var front := Digits(n / 10);
      ValueOfDigits(n / 10);
      assert Digits(n)[..|front|] == front;
    }
  }

  function ParseU64(s: string): Result<U64>
  {
    var t := if s != "" && s[0] == '+' then s[1..] else s;
    if Numeral(t) && Value(t) <= U64_MAX then Ok(Value(t)) else Err
  }

  function InI32(numeral: string, v: int): Result<I32>
  {
    if Numeral(numeral) && I32_MIN <= v <= I32_MAX then Ok(v) else Err
  }

  function ParseI32(s: string): Result<I32>
  {
    if s == "" then Err
    else if s[0] == '-' then InI32(s[1..], 0 - Value(s[1..]))
    else if s[0] == '+' then InI32(s[1..], Value(s[1..]))
    else InI32(s, Value(s))
  }

  function PrintInt(n: int): string { if n < 0 then "-" + Digits(-n) else Digits(n) }

  lemma ParsedU64(n: U64)
    ensures ParseU64(Digits(n)) == Ok(n)
  {
    ValueOfDigits(n);
  }

  lemma ParsedI32(n: I32)
    ensures ParseI32(PrintInt(n)) == Ok(n)
  {
    if n < 0 {
      var m: int := n;
      ValueOfDigits(-m);
      assert ("-" + Digits(-m))[1..] == Digits(-m);
    } else {
      ValueOfDigits(n);
    }
  }

  // ---- Text ------------------------------------------------------------------------------

  predicate IsSpace(c: char)
  {
    var n := c as int;
    9 <= n <= 13 || n in {0x20, 0x85, 0xa0, 0x1680, 0x2028, 0x2029, 0x202f, 0x205f, 0x3000} || 0x2000 <= n <= 0x200a
  }

  function TrimStart(s: string): string { if s != "" && IsSpace(s[0]) then TrimStart(s[1..]) else s }
  function TrimEnd(s: string): string { if s != "" && IsSpace(s[|s| - 1]) then TrimEnd(s[..|s| - 1]) else s }
  function Trim(s: string): string { TrimEnd(TrimStart(s)) }

  predicate IsLetter(c: char) { 'a' <= c <= 'z' || 'A' <= c <= 'Z' }
  function LowerChar(c: char): char { if 'A' <= c <= 'Z' then c - 'A' + 'a' else c }
  function UpperChar(c: char): char { if 'a' <= c <= 'z' then c - 'a' + 'A' else c }
  function Lower(s: string): string { seq(|s|, i requires 0 <= i < |s| => LowerChar(s[i])) }

  /** How many characters come before the first letter. */
  function UnitStart(s: string): (n: nat)
    ensures n <= |s|
  {
    if s == "" || IsLetter(s[0]) then 0 else 1 + UnitStart(s[1..])
  }

  predicate IsNumberChar(c: char) { IsDigit(c) || c == '.' }

  function NumberEnd(s: string): (n: nat)
    ensures n <= |s|
  {
    if s == "" || !IsNumberChar(s[0]) then 0 else 1 + NumberEnd(s[1..])
  }

  // ---- Memory sizes ----------------------------------------------------------------------

  const KI := 1024
  const MI := 1024 * 1024
  const GI := 1024 * 1024 * 1024

  /** The power of a unit's prefix letter; 0 for a letter that is none. */
  function Power(c: char): nat
  {
    match c case 'k' => 1 case 'm' => 2 case 'g' => 3 case 't' => 4 case 'p' => 5 case 'e' => 6 case _ => 0
  }

  function Pow(base: nat, n: nat): (p: nat)
    ensures base > 0 ==> p > 0
  {
    if n == 0 then 1 else base * Pow(base, n - 1)
  }

  /** Digits with at most one point among them: all the digits, and how many are behind the point. */
  datatype Decimal = Decimal(digits: string, scale: nat)

  function ParseDecimal(s: string): Option<Decimal>
  {
    var parts := Split(s, '.');
    if |parts| == 1 && Numeral(parts[0]) then Some(Decimal(parts[0], 0))
    else if |parts| == 2 && Numeral(parts[0] + parts[1]) then Some(Decimal(parts[0] + parts[1], |parts[1]|))
    else None
  }

  /** A number of units in bytes, cut to whole bytes. */
  function Bytes(d: Decimal, factor: nat): U64 { Capped(Value(d.digits) * factor / Pow(10, d.scale)) }

  /** Nothing or `b` behind the prefix. */
  predicate DecimalTail(t: string) { t == "" || (|t| == 1 && t[0] == 'b') }

  /** `i` or `ib` behind the prefix. */
  predicate BinaryTail(t: string) { |t| >= 1 && t[0] == 'i' && DecimalTail(t[1..]) }

  /** Units up to the fifth power are made binary, whichever way they are written. */
  function BinaryUnit(unit: string): string
  {
    var u := Lower(unit);
    if u != "" && 1 <= Power(u[0]) <= 5 && (DecimalTail(u[1..]) || BinaryTail(u[1..])) then [UpperChar(u[0]), 'i', 'B']
    else unit
  }

  function ConvertToBinaryUnits(s: string): string
  {
    var t := Trim(s);
    var n := UnitStart(t);
    t[..n] + BinaryUnit(t[n..])
  }

  /** The size library's units. */
  function UnitFactor(unit: string): Option<nat>
  {
    var u := Lower(unit);
    if |u| == 1 && u[0] == 'b' then Some(1)
    else if u == "" || Power(u[0]) == 0 then None
    else if DecimalTail(u[1..]) then Some(Pow(1000, Power(u[0])))
    else if BinaryTail(u[1..]) then Some(Pow(1024, Power(u[0])))
    else None
  }

  function Capped(n: nat): U64 { if n <= U64_MAX then n else U64_MAX }

  /** A number with an optional unit. */
  function ParseByteSize(s: string): Result<U64>
  {
    if ParseU64(s).Ok? then ParseU64(s)
    else
      var n := NumberEnd(s);
      match (ParseDecimal(s[..n]), UnitFactor(TrimStart(s[n..])))
      case (Some(d), Some(factor)) => Ok(Bytes(d, factor))
      case _ => Err
  }

  function ParseMemory(s: string): Result<U64>
  {
    var t := Trim(s);
    if t == "" then Err else ParseByteSize(ConvertToBinaryUnits(t))
  }

  function MemoryUnit(bytes: nat): (string, nat)
  {
    if bytes >= GI then ("Gi", GI) else if bytes >= MI then ("Mi", MI) else if bytes >= KI then ("Ki", KI) else ("B", 1)
  }

  function FormatMemory(bytes: nat): string
  {
    var (name, factor) := MemoryUnit(bytes);
    Digits(bytes / factor) + name
  }

  // ---- Requirements ----------------------------------------------------------------------

  const NOTHING := Requirement(0, 0, 0)

  function SetField(key: string, value: string, r: Requirement): Result<Requirement>
  {
    if key == "cpu" then (match ParseU64(value) case Ok(n) => Ok(r.(cpu := n)) case Err => Err)
    else if key in ["memory", "mem"] then (match ParseMemory(value) case Ok(n) => Ok(r.(memory := n)) case Err => Err)
    else if key == "gpu" then (match ParseI32(value) case Ok(n) => Ok(r.(gpu := n)) case Err => Err)
    else Err
  }

  /** One `key=value` entry; a later entry of the same key wins. */
  function ParseEntry(part: string, r: Requirement): Result<Requirement>
  {
    var sides := Split(Trim(part), '=');
    if |sides| != 2 || Trim(sides[1]) == "" then Err
    else SetField(Lower(Trim(sides[0])), Trim(sides[1]), r)
  }

  function ParseEntries(parts: seq<string>, r: Requirement): Result<Requirement>
  {
    if parts == [] then Ok(r)
    else match ParseEntry(parts[0], r) case Ok(next) => ParseEntries(parts[1..], next) case Err => Err
  }

  function ParseText(s: string): Result<Requirement>
  {
    if Trim(s) == "" then Err else ParseEntries(Split(Trim(s), ','), NOTHING)
  }

  function FormatRequirement(r: Requirement): string
  {
    "cpu=" + Digits(r.cpu) + ",mem=" + FormatMemory(r.memory) + ",gpu=" + PrintInt(r.gpu)
  }

  function FormatOptional(r: Option<Requirement>): string
  {
    match r case None => "-" case Some(r) => FormatRequirement(r)
  }

  method Parse(s: string) returns (r: Result<Requirement>)
    ensures r == ParseText(s)
  {
    var t := Trim(s);
    if t == "" {
      return Err;
    }
    var cpu: U64, memory: U64, gpu: I32 := 0, 0, 0;
    var parts := Split(t, ',');
    for i := 0 to |parts|
      invariant ParseText(s) == ParseEntries(parts[i..], Requirement(cpu, memory, gpu))
    {
      assert parts[i..][1..] == parts[i + 1..];
      var part := Trim(parts[i]);
      if part == "" {
        return Err;
      }
      var sides := Split(part, '=');
      if |sides| != 2 {
        return Err;
      }
      var key, value := Lower(Trim(sides[0])), Trim(sides[1]);
      if value == "" {
        return Err;
      }
      if key == "cpu" {
        var n := ParseU64(value);
        if n.Err? { return Err; }
        cpu := n.value;
      } else if key in ["memory", "mem"] {
        var n := ParseMemory(value);
        if n.Err? { return Err; }
        memory := n.value;
      } else if key == "gpu" {
        var n := ParseI32(value);
        if n.Err? { return Err; }
        gpu := n.value;
      } else {
        return Err;
      }
    }
    r := Ok(Requirement(cpu, memory, gpu));
  }

  // ---- Printed text is read back ---------------------------------------------------------

  /** Characters that neither trimming nor splitting touches. */
  predicate PlainChar(c: char) { IsDigit(c) || IsLetter(c) || c == '-' }
  predicate Plain(s: string) { s != "" && forall i :: 0 <= i < |s| ==> PlainChar(s[i]) }

  lemma PlainIsNoSeparator(s: string)
    requires Plain(s)
    ensures ',' !in s && '=' !in s && Trim(s) == s
  {
    assert !IsSpace(s[0]) && !IsSpace(s[|s| - 1]);
  }

  lemma TrimOfEnds(s: string)
    requires s != "" && !IsSpace(s[0]) && !IsSpace(s[|s| - 1])
    ensures Trim(s) == s
  {
  }

  lemma EntryOf(part: string, key: string, value: string, r: Requirement)
    requires Plain(key) && Plain(value) && part == key + "=" + value
    ensures ',' !in part && ParseEntry(part, r) == SetField(Lower(key), value, r)
  {
    PlainIsNoSeparator(key);
    PlainIsNoSeparator(value);
    TrimOfEnds(part);
    SplitAfterPiece(key, value, '=');
    SplitOfPiece(value, '=');
    assert part == key + ['='] + value;
  }

  lemma {:induction false} UnitStartOf(digits: string, unit: string)
    requires unit != "" && IsLetter(unit[0]) && forall i :: 0 <= i < |digits| ==> IsNumberChar(digits[i])
    ensures UnitStart(digits + unit) == |digits| && NumberEnd(digits + unit) == |digits|
  {
    var s := digits + unit;
    if digits == "" {
      assert s == unit;
    } else {
      UnitStartOf(digits[1..], unit);
      assert s[1..] == digits[1..] + unit;
    }
  }

  lemma UnitNames(bytes: nat)
    ensures var (name, factor) := MemoryUnit(bytes);
      Plain(name) && IsLetter(name[0]) && BinaryUnit(name) != "" && IsLetter(BinaryUnit(name)[0])
      && UnitFactor(BinaryUnit(name)) == Some(factor)
  {
    PrefixUnit('G', 3);
    PrefixUnit('M', 2);
    PrefixUnit('K', 1);
    Pow1024();
  }

  lemma Pow1024()
    ensures Pow(1024, 1) == KI && Pow(1024, 2) == MI && Pow(1024, 3) == GI
  {
  }

  lemma PrefixUnit(c: char, p: nat)
    requires 'A' <= c <= 'Z' && Power(LowerChar(c)) == p && 1 <= p <= 5
    ensures BinaryUnit([c, 'i']) == [c, 'i', 'B'] && UnitFactor([c, 'i', 'B']) == Some(Pow(1024, p))
  {
    assert Lower([c, 'i'])[1..] == "i" && Lower([c, 'i', 'B'])[1..] == "ib";
    assert "ib"[1..] == "b";
  }

  lemma ByteSizeOf(digits: string, unit: string)
    requires Numeral(digits) && unit != "" && IsLetter(unit[0]) && UnitFactor(unit).Some?
    ensures ParseByteSize(digits + unit) == Ok(Capped(Value(digits) * UnitFactor(unit).value))
  {
    SplitOfPiece(digits, '.');
    assert Pow(10, 0) == 1;
    NumberThenUnit(digits, Decimal(digits, 0), unit);
  }

  lemma DecimalOf(whole: string, fraction: string)
    requires Numeral(whole + fraction)
    ensures ParseDecimal(whole + "." + fraction) == Some(Decimal(whole + fraction, |fraction|))
    ensures forall i :: 0 <= i < |whole + "." + fraction| ==> IsNumberChar((whole + "." + fraction)[i])
  {
    var number, digits := whole + "." + fraction, whole + fraction;
    assert forall i :: 0 <= i < |whole| ==> IsDigit(digits[i]) && whole[i] == digits[i];
    assert forall i :: 0 <= i < |fraction| ==> IsDigit(digits[|whole| + i]) && fraction[i] == digits[|whole| + i];
    assert number == whole + ['.'] + fraction;
    SplitAfterPiece(whole, fraction, '.');
    SplitOfPiece(fraction, '.');
  }

  lemma NumberThenUnit(number: string, d: Decimal, unit: string)
    requires number != "" && (forall i :: 0 <= i < |number| ==> IsNumberChar(number[i])) &&
      ParseDecimal(number) == Some(d)
    requires unit != "" && IsLetter(unit[0]) && UnitFactor(unit).Some?
    ensures ParseByteSize(number + unit) == Ok(Bytes(d, UnitFactor(unit).value))
  {
    var s := number + unit;
    UnitStartOf(number, unit);
    assert s[|number|] == unit[0] && !IsDigit(unit[0]) && !IsSpace(unit[0]);
    assert s[0] == number[0] && s[0] != '+';
    assert s[..|number|] == number && s[|number|..] == unit;
  }

  /** A fraction of a unit counts the whole bytes of it. */
  lemma FractionOf(whole: string, fraction: string, unit: string)
    requires Numeral(whole + fraction) && unit != "" && IsLetter(unit[0]) && UnitFactor(unit).Some?
    ensures ParseByteSize(whole + "." + fraction + unit) ==
      Ok(Bytes(Decimal(whole + fraction, |fraction|), UnitFactor(unit).value))
  {
    DecimalOf(whole, fraction);
    NumberThenUnit(whole + "." + fraction, Decimal(whole + fraction, |fraction|), unit);
  }

  lemma MemoryOf(digits: string, unit: string)
    requires Numeral(digits) && Plain(unit) && IsLetter(unit[0])
    requires BinaryUnit(unit) != "" && IsLetter(BinaryUnit(unit)[0]) && UnitFactor(BinaryUnit(unit)).Some?
    ensures ParseMemory(digits + unit) == Ok(Capped(Value(digits) * UnitFactor(BinaryUnit(unit)).value))
  {
    var s := digits + unit;
    PlainIsNoSeparator(s);
    UnitStartOf(digits, unit);
    assert s[..|digits|] == digits && s[|digits|..] == unit;
    ByteSizeOf(digits, BinaryUnit(unit));
  }

  /** Memory in the unit it is printed in, rounded down. */
  function Floor(bytes: nat): nat { bytes / MemoryUnit(bytes).1 * MemoryUnit(bytes).1 }

  predicate RoundsDown(n: nat, f: nat)
    requires f > 0
  {
    n / f * f <= n < n / f * f + f && (n / f * f == n <==> n % f == 0) && (n / f * f) / f == n / f &&
      (n >= f ==> n / f >= 1)
  }

  lemma RoundDownGi(n: nat)
    ensures RoundsDown(n, GI)
  {
  }

  lemma RoundDownMi(n: nat)
    ensures RoundsDown(n, MI)
  {
  }

  lemma RoundDownKi(n: nat)
    ensures RoundsDown(n, KI) && RoundsDown(n, 1)
  {
  }

  lemma RoundDown(n: nat)
    ensures RoundsDown(n, GI) && RoundsDown(n, MI) && RoundsDown(n, KI) && RoundsDown(n, 1)
  {
    RoundDownGi(n);
    RoundDownMi(n);
    RoundDownKi(n);
  }

  lemma FloorKeepsUnit(bytes: nat)
    ensures MemoryUnit(Floor(bytes)) == MemoryUnit(bytes)
  {
    RoundDown(bytes);
  }

  /** Rounding loses less than one unit, loses nothing at a multiple, and keeps the printed text. */
  lemma FloorMeans(bytes: nat)
    ensures Floor(bytes) <= bytes < Floor(bytes) + MemoryUnit(bytes).1
    ensures Floor(bytes) == bytes <==> bytes % MemoryUnit(bytes).1 == 0
    ensures FormatMemory(Floor(bytes)) == FormatMemory(bytes)
  {
    RoundDown(bytes);
    FloorKeepsUnit(bytes);
  }

  lemma ParsedMemory(bytes: U64)
    ensures Plain(FormatMemory(bytes)) && ParseMemory(FormatMemory(bytes)) == Ok(Floor(bytes))
  {
    var (name, factor) := MemoryUnit(bytes);
    UnitNames(bytes);
    ValueOfDigits(bytes / factor);
    MemoryOf(Digits(bytes / factor), name);
    FloorMeans(bytes);
  }

  lemma SplitThree(a: string, b: string, c: string)
    requires ',' !in a && ',' !in b && ',' !in c
    requires a != "" && !IsSpace(a[0]) && c != "" && !IsSpace(c[|c| - 1])
    ensures ParseText(a + "," + b + "," + c) == ParseEntries([a, b, c], NOTHING)
  {
    var s := a + "," + b + "," + c;
    assert s == a + [','] + (b + [','] + c);
    TrimOfEnds(s);
    SplitAfterPiece(a, b + [','] + c, ',');
    SplitAfterPiece(b, c, ',');
    SplitOfPiece(c, ',');
    assert [a] + ([b] + [c]) == [a, b, c];
  }

  lemma Commas(a: string, b: string, c: string)
    ensures "cpu=" + a + ",mem=" + b + ",gpu=" + c == ("cpu=" + a) + "," + ("mem=" + b) + "," + ("gpu=" + c)
  {
  }

  lemma FirstEntry(part: string, rest: seq<string>, r: Requirement, next: Requirement)
    requires ParseEntry(part, r) == Ok(next)
    ensures ParseEntries([part] + rest, r) == ParseEntries(rest, next)
  {
    assert ([part] + rest)[1..] == rest;
  }

  lemma CpuEntry(value: string, n: U64, r: Requirement)
    requires Plain(value) && ParseU64(value) == Ok(n)
    ensures ',' !in "cpu=" + value && ParseEntry("cpu=" + value, r) == Ok(r.(cpu := n))
  {
    assert Lower("cpu") == "cpu";
    EntryOf("cpu=" + value, "cpu", value, r);
  }

  lemma MemoryField(value: string, n: U64, r: Requirement)
    requires ParseMemory(value) == Ok(n)
    ensures SetField("mem", value, r) == Ok(r.(memory := n))
  {
  }

  lemma MemoryEntry(value: string, r: Requirement)
    requires Plain(value)
    ensures ',' !in "mem=" + value && ParseEntry("mem=" + value, r) == SetField("mem", value, r)
  {
    assert Lower("mem") == "mem";
    EntryOf("mem=" + value, "mem", value, r);
  }

  lemma GpuEntry(value: string, n: I32, r: Requirement)
    requires Plain(value) && ParseI32(value) == Ok(n)
    ensures ',' !in "gpu=" + value && ParseEntry("gpu=" + value, r) == Ok(r.(gpu := n))
  {
    assert Lower("gpu") == "gpu";
    EntryOf("gpu=" + value, "gpu", value, r);
  }

  lemma PrintedInts(n: U64, m: I32)
    ensures Plain(Digits(n)) && ParseU64(Digits(n)) == Ok(n)
    ensures Plain(PrintInt(m)) && ParseI32(PrintInt(m)) == Ok(m)
  {
    ParsedU64(n);
    ParsedI32(m);
  }

  /** Every printed requirement is accepted; cpu and gpu come back as they were and memory rounded
      down to the printed unit, and printing the result again gives the same text. */
  lemma ParseOfFormat(r: Requirement)
    ensures Floor(r.memory) <= U64_MAX
    ensures ParseText(FormatRequirement(r)) == Ok(Requirement(r.cpu, Floor(r.memory), r.gpu))
    ensures FormatRequirement(Requirement(r.cpu, Floor(r.memory), r.gpu)) == FormatRequirement(r)
  {
    FloorMeans(r.memory);
    var r1 := Requirement(r.cpu, 0, 0);
    var r2 := Requirement(r.cpu, Floor(r.memory), 0);
    var r3 := Requirement(r.cpu, Floor(r.memory), r.gpu);
    PrintedInts(r.cpu, r.gpu);
    ParsedMemory(r.memory);
    CpuEntry(Digits(r.cpu), r.cpu, NOTHING);
    MemoryEntry(FormatMemory(r.memory), r1);
    MemoryField(FormatMemory(r.memory), Floor(r.memory), r1);
    GpuEntry(PrintInt(r.gpu), r.gpu, r2);
    SplitThree("cpu=" + Digits(r.cpu), "mem=" + FormatMemory(r.memory), "gpu=" + PrintInt(r.gpu));
    var a, b, c := "cpu=" + Digits(r.cpu), "mem=" + FormatMemory(r.memory), "gpu=" + PrintInt(r.gpu);
    assert [a, b, c] == [a] + ([b] + ([c] + []));
    FirstEntry(a, [b] + ([c] + []), NOTHING, r1);
    FirstEntry(b, [c] + [], r1, r2);
    FirstEntry(c, [], r2, r3);
    Commas(Digits(r.cpu), FormatMemory(r.memory), PrintInt(r.gpu));
  }

  /** What stands for no requirement is not accepted as one. */
  lemma DashIsRefused()
    ensures ParseText(FormatOptional(None)) == Err
  {
    PlainIsNoSeparator("-");
    SplitOfPiece("-", ',');
    SplitOfPiece("-", '=');
  }
}
