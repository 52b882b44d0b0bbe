/** How requirements may be written: spaces, upper and lower case, the spellings of units, fractions,
    and what makes a whole text refused. */
module ResourceText {
  import opened Wrappers
  import opened ObjectKeys
  import opened Resources

  // ---- Spaces ----------------------------------------------------------------------------

  predicate Spaces(s: string) { forall i :: 0 <= i < |s| ==> IsSpace(s[i]) }

  /** No space at either end. */
  predicate Tight(s: string) { s != "" && !IsSpace(s[0]) && !IsSpace(s[|s| - 1]) }

  lemma {:induction false} TrimStartOf(a: string, s: string)
    requires Spaces(a) && (s == "" || !IsSpace(s[0]))
    ensures TrimStart(a + s) == s
  {
    if a == "" {
      assert a + s == s;
    } else {
      TrimStartOf(a[1..], s);
      assert (a + s)[1..] == a[1..] + s;
    }
  }

  lemma {:induction false} TrimEndOf(s: string, b: string)
    requires Spaces(b) && (s == "" || !IsSpace(s[|s| - 1]))
    ensures TrimEnd(s + b) == s
  {
    if b == "" {
      assert s + b == s;
    } else {
      var n := |b| - 1;
      TrimEndOf(s, b[..n]);
      assert (s + b)[..|s + b| - 1] == s + b[..n];
    }
  }

  /** Spaces around a text are ignored, and nothing else of it is. */
  lemma TrimOf(a: string, s: string, b: string)
    requires Spaces(a) && Spaces(b) && Tight(s)
    ensures Trim(a + s + b) == s
  {
    assert a + s + b == a + (s + b);
    TrimStartOf(a, s + b);
    TrimEndOf(s, b);
  }

  lemma OnlySpaces(a: string)
    requires Spaces(a)
    ensures Trim(a) == ""
  {
    assert a + "" == a;
    TrimStartOf(a, "");
  }

  // ---- Entries ---------------------------------------------------------------------------

  /** An entry sets the field of its key, in upper or lower case, to its value, with spaces anywhere
      around key and value. */
  lemma SpacedEntry(a: string, key: string, b: string, c: string, value: string, d: string, r: Requirement)
    requires Spaces(a) && Spaces(b) && Spaces(c) && Spaces(d) && Tight(key) && Tight(value)
    requires '=' !in key && '=' !in value
    ensures ParseEntry(a + (key + b + "=" + (c + value)) + d, r) == SetField(Lower(key), value, r)
  {
    var entry := key + b + "=" + (c + value);
    assert entry[0] == key[0] && entry[|entry| - 1] == value[|value| - 1];
    TrimOf(a, entry, d);
    SidesOf(key, b, c, value);
    assert "" + key + b == key + b && c + value + "" == c + value;
    TrimOf("", key, b);
    TrimOf(c, value, "");
  }

  lemma SidesOf(key: string, b: string, c: string, value: string)
    requires Spaces(b) && Spaces(c) && '=' !in key && '=' !in value
    ensures Split(key + b + "=" + (c + value), '=') == [key + b, c + value]
  {
    NoEquals(b);
    NoEquals(c);
    SplitAfterPiece(key + b, c + value, '=');
    SplitOfPiece(c + value, '=');
    assert key + b + "=" + (c + value) == key + b + ['='] + (c + value);
  }

  lemma NoEquals(s: string)
    requires Spaces(s)
    ensures '=' !in s
  {
  }

  /** `mem` and `memory` are the same key, in upper and lower case. */
  lemma MemoryKeysAlike(key: string, value: string, r: Requirement)
    requires Tight(key) && Tight(value) && '=' !in key && '=' !in value
    requires Lower(key) == "mem" || Lower(key) == "memory"
    ensures ParseEntry(key + "=" + value, r) == ParseEntry("mem" + "=" + value, r)
    ensures ParseEntry(key + "=" + value, r).Ok? <==> ParseMemory(value).Ok?
    ensures ParseMemory(value).Ok? ==> ParseEntry(key + "=" + value, r) == Ok(r.(memory := ParseMemory(value).value))
  {
    PlainEntry(key, value, r);
    PlainEntry("mem", value, r);
    LowerMem();
  }

  lemma LowerMem()
    ensures Lower("mem") == "mem"
  {
  }

  /** `b` is `a` with some capital letters made small. */
  predicate SameLetters(a: string, b: string)
  {
    |a| == |b| && forall i :: 0 <= i < |a| ==>
      a[i] == b[i] || (65 <= a[i] as int <= 90 && b[i] as int == a[i] as int + 32)
  }

  /** Keys are read in upper and lower case alike. */
  lemma CaseIgnored(a: string, b: string, value: string, r: Requirement)
    requires SameLetters(a, b) && Tight(a) && Tight(b) && Tight(value)
    requires '=' !in a && '=' !in b && '=' !in value
    ensures ParseEntry(a + "=" + value, r) == ParseEntry(b + "=" + value, r)
  {
    PlainEntry(a, value, r);
    PlainEntry(b, value, r);
    SameLower(a, b);
  }

  lemma SameLower(a: string, b: string)
    requires SameLetters(a, b)
    ensures Lower(a) == Lower(b)
  {
    forall i | 0 <= i < |a| ensures LowerChar(a[i]) == LowerChar(b[i]) { SameLowerChar(a[i], b[i]); }
  }

  lemma SameLowerChar(a: char, b: char)
    requires a == b || (65 <= a as int <= 90 && b as int == a as int + 32)
    ensures LowerChar(a) == LowerChar(b)
  {
    if a != b { assert 'A' <= a <= 'Z'; }
  }

  lemma PlainEntry(key: string, value: string, r: Requirement)
    requires Tight(key) && Tight(value) && '=' !in key && '=' !in value
    ensures ParseEntry(key + "=" + value, r) == SetField(Lower(key), value, r)
  {
    SpacedEntry("", key, "", "", value, "", r);
    assert "" + (key + "" + "=" + ("" + value)) + "" == key + "=" + value;
  }

  /** An entry for a key replaces what an earlier one for it said, and keeps the other fields. */
  lemma LaterEntryWins(key: string, first: string, second: string, r: Requirement)
    requires SetField(key, first, r).Ok?
    ensures SetField(key, second, SetField(key, first, r).value) == SetField(key, second, r)
  {
  }

  /** Whether an entry is accepted does not depend on the others; one bad entry refuses the whole. */
  lemma {:induction false} AllOrNothing(parts: seq<string>, r: Requirement)
    ensures ParseEntries(parts, r).Ok? <==> forall i :: 0 <= i < |parts| ==> ParseEntry(parts[i], NOTHING).Ok?
  {
    if parts != [] {
      SameVerdict(parts[0], r);
      if ParseEntry(parts[0], r).Ok? {
        AllOrNothing(parts[1..], ParseEntry(parts[0], r).value);
        assert forall i :: 0 < i < |parts| ==> parts[i] == parts[1..][i - 1];
        assert forall i :: 0 <= i < |parts[1..]| ==> parts[1..][i] == parts[i + 1];
      }
    }
  }

  lemma SameVerdict(part: string, r: Requirement)
    ensures ParseEntry(part, r).Ok? <==> ParseEntry(part, NOTHING).Ok?
  {
  }

  // ---- Numbers ---------------------------------------------------------------------------

  /** Numbers are read exactly when they are in range. */
  lemma NumbersInRange(n: nat, m: int)
    ensures ParseU64(Digits(n)).Ok? <==> n <= U64_MAX
    ensures ParseI32(PrintInt(m)).Ok? <==> I32_MIN <= m <= I32_MAX
  {
    ValueOfDigits(n);
    if m < 0 {
      ValueOfDigits(-m);
      assert ("-" + Digits(-m))[1..] == Digits(-m);
    } else {
      ValueOfDigits(m);
    }
  }

  /** A plus sign changes nothing. */
  lemma PlusIgnored(n: U64, m: I32)
    requires m >= 0
    ensures ParseU64("+" + Digits(n)) == Ok(n) && ParseI32("+" + Digits(m)) == Ok(m)
  {
    ValueOfDigits(n);
    ValueOfDigits(m);
    assert ("+" + Digits(n))[1..] == Digits(n);
    assert ("+" + Digits(m))[1..] == Digits(m);
  }

  lemma {:induction false} NoUnit(digits: string)
    requires forall i :: 0 <= i < |digits| ==> IsDigit(digits[i])
    ensures UnitStart(digits) == |digits|
  {
    if digits != "" { NoUnit(digits[1..]); }
  }

  /** A number without a unit is that many bytes. */
  lemma PlainBytes(n: U64)
    ensures ParseMemory(Digits(n)) == Ok(n)
  {
    var s := Digits(n);
    TrimOfEnds(s);
    NoUnit(s);
    ParsedU64(n);
    assert s[..|s|] == s && s[|s|..] == "";
    assert Lower("") == "";
    assert s + "" == s;
  }

  /** A fraction of a unit is cut to whole bytes, and a size that does not fit is the largest one. */
  lemma BytesMean(d: Decimal, factor: nat)
    ensures var n, p := Bytes(d, factor), Pow(10, d.scale);
      && p > 0
      && (if Value(d.digits) * factor < (U64_MAX + 1) * p then n * p <= Value(d.digits) * factor < (n + 1) * p
          else n == U64_MAX)
  {
    CutMeans(Value(d.digits) * factor, Pow(10, d.scale));
  }

  lemma CutMeans(v: nat, p: nat)
    requires p > 0
    ensures v / p * p <= v < (v / p + 1) * p
    ensures v / p <= U64_MAX <==> v < (U64_MAX + 1) * p
  {
    var q := v / p;
    assert v == q * p + v % p;
    assert (q + 1) * p == q * p + p;
    if q <= U64_MAX { TimesGrows(q + 1, U64_MAX + 1, p); } else { TimesGrows(U64_MAX + 1, q, p); }
  }

  lemma TimesGrows(a: nat, b: nat, p: nat)
    requires a <= b
    ensures a * p <= b * p
  {
  }

  // ---- Units -----------------------------------------------------------------------------

  /** A spelling of the p-th binary unit: a prefix letter, then nothing, `b`, `i` or `ib`, in any case. */
  predicate Spells(unit: string, p: nat)
  {
    && 1 <= |unit| <= 3 && IsLetter(unit[0]) && Power(LowerChar(unit[0])) == p
    && Lower(unit[1..]) in ["", "b", "i", "ib"]
  }

  lemma SpelledUnit(unit: string, p: nat)
    requires Spells(unit, p) && 1 <= p <= 5
    ensures BinaryUnit(unit) == [UpperChar(unit[0]), 'i', 'B'] && Plain(unit)
  {
    var u := Lower(unit);
    assert u[1..] == Lower(unit[1..]);
    if u[1..] == "ib" || u[1..] == "i" { assert u[1..][0] == 'i' && DecimalTail(u[1..][1..]); }
    SpelledLetters(unit, p);
  }

  /** However a unit is spelled, a number of it is that many binary units: `1G`, `1GB`, `1Gi` and `1GiB`,
      in upper and lower case, are the same bytes. */
  lemma UnitMeansBytes(digits: string, unit: string, p: nat)
    requires Numeral(digits) && Spells(unit, p) && 1 <= p <= 5
    ensures ParseMemory(digits + unit) == Ok(Capped(Value(digits) * Pow(1024, p)))
  {
    SpelledUnit(unit, p);
    var c := UpperChar(unit[0]);
    assert LowerChar(c) == LowerChar(unit[0]);
    PrefixUnit(c, p);
    MemoryOf(digits, unit);
  }

  /** The sixth unit is not made binary: `1E` and `1EB` are powers of 1000, `1Ei` and `1EiB` of 1024. */
  lemma SixthUnit(digits: string, unit: string)
    requires Numeral(digits) && Spells(unit, 6)
    ensures ParseMemory(digits + unit) ==
      Ok(Capped(Value(digits) * Pow(if Lower(unit[1..]) in ["", "b"] then 1000 else 1024, 6)))
  {
    SpelledLetters(unit, 6);
    SixthFactor(unit);
    MemoryOf(digits, unit);
  }

  lemma SixthFactor(unit: string)
    requires Spells(unit, 6)
    ensures BinaryUnit(unit) == unit
    ensures UnitFactor(unit) == Some(Pow(if Lower(unit[1..]) in ["", "b"] then 1000 else 1024, 6))
  {
    var u := Lower(unit);
    assert u[1..] == Lower(unit[1..]);
    if u[1..] == "ib" || u[1..] == "i" { assert u[1..][0] == 'i' && DecimalTail(u[1..][1..]); }
  }

  lemma SpelledLetters(unit: string, p: nat)
    requires Spells(unit, p)
    ensures Plain(unit)
  {
    forall i | 0 <= i < |unit| ensures IsLetter(unit[i]) {
      if i > 0 { assert Lower(unit[1..])[i - 1] == LowerChar(unit[i]); }
    }
  }

  /** The letters of the prefixes, and the sizes of the units. */
  lemma UnitLetters(c: char, base: nat, p: nat)
    ensures Power('k') == 1 && Power('m') == 2 && Power('g') == 3 && Power('t') == 4 && Power('p') == 5
    ensures Power('e') == 6 && (c !in "kmgtpe" ==> Power(c) == 0)
    ensures Pow(base, p + 1) == base * Pow(base, p) && Pow(base, 0) == 1
  {
  }

  /** The characters that count as spaces are those with the Unicode property White_Space. */
  lemma SpacesAre(c: char)
    ensures IsSpace(c) <==>
      || c in "\t\n\r " || c as int in [0x0b, 0x0c, 0x85, 0xa0, 0x1680, 0x2028, 0x2029, 0x202f, 0x205f, 0x3000]
      || 0x2000 <= c as int <= 0x200a
  {
  }

  // ---- What is refused -------------------------------------------------------------------

  /** A key that is none of the four, an entry with no or with two equals signs, and an empty value are
      refused. */
  lemma BadEntryRefused(key: string, value: string, r: Requirement)
    requires Tight(key) && Tight(value) && '=' !in key && '=' !in value
    ensures Lower(key) !in ["cpu", "mem", "memory", "gpu"] ==> ParseEntry(key + "=" + value, r).Err?
    ensures ParseEntry(key, r).Err?
    ensures ParseEntry(key + "=", r).Err?
  {
    PlainEntry(key, value, r);
    TrimOfEnds(key);
    SplitOfPiece(key, '=');
    var bare := key + "=";
    TrimOfEnds(bare);
    SplitAfterPiece(key, "", '=');
    assert bare == key + ['='] + "";
  }

  lemma TwoEqualsRefused(key: string, value: string, more: string, r: Requirement)
    requires Tight(key) && Tight(more) && '=' !in key && '=' !in value && '=' !in more
    ensures ParseEntry(key + "=" + value + "=" + more, r).Err?
  {
    TrimOfEnds(key + "=" + value + "=" + more);
    ThreeSides(key, value, more);
  }

  lemma ThreeSides(key: string, value: string, more: string)
    requires '=' !in key && '=' !in value && '=' !in more
    ensures |Split(key + "=" + value + "=" + more, '=')| == 3
  {
    SplitAfterPiece(key, value + ['='] + more, '=');
    SplitAfterPiece(value, more, '=');
    SplitOfPiece(more, '=');
    assert key + "=" + value + "=" + more == key + ['='] + (value + ['='] + more);
  }

  /** A text of nothing but spaces is refused. */
  lemma EmptyRefused(s: string)
    requires Spaces(s)
    ensures ParseText(s).Err? && ParseMemory(s).Err?
  {
    OnlySpaces(s);
  }

  /** The unit that memory is printed in is the largest of the four that is not more than it. */
  lemma LargestUnit(bytes: nat)
    ensures var (name, factor) := MemoryUnit(bytes);
      && (name, factor) in [("B", 1), ("Ki", 1024), ("Mi", 1024 * 1024), ("Gi", 1024 * 1024 * 1024)]
      && (bytes > 0 ==> factor <= bytes) && (bytes < 1024 * factor || name == "Gi")
      && FormatMemory(bytes) == Digits(bytes / factor) + name
  {
  }
}
