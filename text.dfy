/**
 * The .NET string and integer primitives the core depends on, stated exactly enough for
 * the properties proved about the relay, the hub and the platform adapters:
 * string.Split(char), string.Replace(string, string), long/int parsing with
 * NumberStyles.Integer, decimal rendering and char.IsWhiteSpace.
 */
module Text {
  import opened Wrappers

  const Int64Min: int := -0x8000_0000_0000_0000
  const Int64Max: int := 0x7FFF_FFFF_FFFF_FFFF
  const Int32Min: int := -0x8000_0000
  const Int32Max: int := 0x7FFF_FFFF

  /** A C# `long` that overflowed wraps around modulo 2^64 (unchecked arithmetic). */
  function WrapInt64(x: int): (r: int)
    ensures Int64Min <= r <= Int64Max
    ensures (r - x) % 0x1_0000_0000_0000_0000 == 0
    ensures Int64Min <= x <= Int64Max ==> r == x
    ensures x == Int64Max + 1 ==> r == Int64Min
  {
    var m := (x - Int64Min) % 0x1_0000_0000_0000_0000;
    m + Int64Min
  }

  // ---------------------------------------------------------------- characters

  /** char.IsWhiteSpace: the characters Unicode lists as White_Space. */
  predicate IsWhiteSpace(c: char) {
    ('\t' <= c <= '\r') || c == ' ' || c == '\U{0085}' || c == '\U{00A0}' || c == '\U{1680}'
    || ('\U{2000}' <= c <= '\U{200A}') || c == '\U{2028}' || c == '\U{2029}'
    || c == '\U{202F}' || c == '\U{205F}' || c == '\U{3000}'
  }

  /** string.IsNullOrWhiteSpace (a null string is not representable here). */
  predicate IsBlank(s: string) {
    forall i :: 0 <= i < |s| ==> IsWhiteSpace(s[i])
  }

  /** Text is blank exactly when both of its parts are. */
  lemma BlankConcat(a: string, b: string)
    ensures IsBlank(a + b) <==> IsBlank(a) && IsBlank(b)
  {
    if IsBlank(a) && IsBlank(b) {
      forall i | 0 <= i < |a + b| ensures IsWhiteSpace((a + b)[i]) {
        if i >= |a| {
          assert (a + b)[i] == b[i - |a|];
        }
      }
    }
    if IsBlank(a + b) {
      forall i | 0 <= i < |a| ensures IsWhiteSpace(a[i]) {
        assert a[i] == (a + b)[i];
      }
      forall i | 0 <= i < |b| ensures IsWhiteSpace(b[i]) {
        assert b[i] == (a + b)[|a| + i];
      }
    }
  }

  /** The empty text and runs of spaces, tabs or ideographic spaces are blank; a letter is not. */
  lemma BlankExamples()
    ensures IsBlank("") && IsBlank(" \t\U{3000}") && !IsBlank(" a ")
  {
    assert " a "[1] == 'a';
  }

  /** The white space NumberStyles.AllowLeadingWhite / AllowTrailingWhite accept. */
  predicate IsNumberWhite(c: char) {
    ('\t' <= c <= '\r') || c == ' '
  }

  predicate IsAsciiDigit(c: char) {
    '0' <= c <= '9'
  }

  predicate AllDigits(s: string) {
    forall i :: 0 <= i < |s| ==> IsAsciiDigit(s[i])
  }

  predicate StartsWith(s: string, prefix: string) {
    |prefix| <= |s| && s[..|prefix|] == prefix
  }

  /** Whether `pat` occurs in `s` at position `i`. */
  predicate OccursAt(s: string, pat: string, i: nat) {
    i + |pat| <= |s| && s[i..i + |pat|] == pat
  }

  // ---------------------------------------------------------------- Split / Join

  /** string.Split(sep): the pieces between separators; never empty, two or more once sep occurs. */
  function Split(s: string, sep: char): (parts: seq<string>)
    ensures |parts| >= 1
    ensures sep in s ==> |parts| >= 2
    decreases |s|
  {
    if s == [] then [""]
    else
      var rest := Split(s[1..], sep);
      assert s[0] != sep && sep in s ==> sep in s[1..];
      if s[0] == sep then [""] + rest else [[s[0]] + rest[0]] + rest[1..]
  }

  /** string.Join(sep, parts), the inverse of Split. */
  function Join(parts: seq<string>, sep: char): string
    requires |parts| >= 1
    decreases |parts|
  {
    if |parts| == 1 then parts[0] else parts[0] + [sep] + Join(parts[1..], sep)
  }

  /** Joining pieces free of the separator holds the separator exactly when there are two or more. */
  lemma {:induction false} JoinSeparators(parts: seq<string>, sep: char)
    requires |parts| >= 1 && forall k :: 0 <= k < |parts| ==> sep !in parts[k]
    ensures sep in Join(parts, sep) <==> |parts| > 1
  {
    if |parts| > 1 {
      assert Join(parts, sep)[|parts[0]|] == sep;
    }
  }

  lemma {:induction false} SplitJoin(s: string, sep: char)
    ensures Join(Split(s, sep), sep) == s
    ensures forall k :: 0 <= k < |Split(s, sep)| ==> sep !in Split(s, sep)[k]
    decreases |s|
  {
    if s != [] {
      SplitJoin(s[1..], sep);
      var rest := Split(s[1..], sep);
      if s[0] == sep {
        assert Split(s, sep) == [""] + rest;
        assert ([""] + rest)[1..] == rest;
      } else {
        var parts := Split(s, sep);
        assert parts == [[s[0]] + rest[0]] + rest[1..];
        if |rest| == 1 {
          assert Join(parts, sep) == [s[0]] + rest[0];
        } else {
          assert parts[1..] == rest[1..];
          assert Join(rest, sep) == rest[0] + [sep] + Join(rest[1..], sep);
        }
        forall k | 0 <= k < |parts| ensures sep !in parts[k] {
          if k == 0 {
            assert sep !in rest[0];
          } else {
            assert parts[k] == rest[k];
          }
        }
      }
    }
  }

  /** Splitting a string with no separator in it gives the whole string. */
  lemma {:induction false} SplitNoSeparator(s: string, sep: char)
    requires sep !in s
    ensures Split(s, sep) == [s]
    decreases |s|
  {
    if s != [] {
      assert sep !in s[1..] by {
        forall c | c in s[1..] ensures c != sep { }
      }
      SplitNoSeparator(s[1..], sep);
      assert [s[0]] + s[1..] == s;
    }
  }

  /** The first piece of a split ends at the first separator. */
  lemma {:induction false} SplitAtFirstSeparator(a: string, sep: char, b: string)
    requires sep !in a
    ensures Split(a + [sep] + b, sep) == [a] + Split(b, sep)
    decreases |a|
  {
    if a == [] {
      assert [] + [sep] + b == [sep] + b;
      assert ([sep] + b)[1..] == b;
    } else {
      var s := a + [sep] + b;
      assert s[1..] == a[1..] + [sep] + b;
      assert sep !in a[1..] by {
        forall c | c in a[1..] ensures c != sep { }
      }
      SplitAtFirstSeparator(a[1..], sep, b);
      assert [a[0]] + a[1..] == a;
    }
  }

  // ---------------------------------------------------------------- Replace

  /**
   * string.Replace(pat, rep) with ordinal comparison: every occurrence of `pat`, found from the
   * left without overlapping, is replaced by `rep`. (The source always passes a non-empty `pat`,
   * which .NET demands.)
   */
  function ReplaceAll(s: string, pat: string, rep: string): string
    requires |pat| > 0
    decreases |s|
  {
    if |s| < |pat| then s
    else if s[..|pat|] == pat then rep + ReplaceAll(s[|pat|..], pat, rep)
    else [s[0]] + ReplaceAll(s[1..], pat, rep)
  }

  /** Replacing a pattern by text at least as long never shortens the string. */
  lemma {:induction false} ReplaceAllNeverShrinks(s: string, pat: string, rep: string)
    requires |pat| > 0 && |rep| >= |pat|
    ensures |ReplaceAll(s, pat, rep)| >= |s|
    decreases |s|
  {
    if |s| >= |pat| {
      if s[..|pat|] == pat {
        ReplaceAllNeverShrinks(s[|pat|..], pat, rep);
      } else {
        ReplaceAllNeverShrinks(s[1..], pat, rep);
      }
    }
  }

  /** Text without an occurrence of `pat` is left unchanged. */
  lemma {:induction false} ReplaceAllNoOccurrence(s: string, pat: string, rep: string)
    requires |pat| > 0
    requires forall i :: 0 <= i <= |s| ==> !OccursAt(s, pat, i)
    ensures ReplaceAll(s, pat, rep) == s
    decreases |s|
  {
    if |s| >= |pat| {
      assert !OccursAt(s, pat, 0);
      assert s[0..|pat|] == s[..|pat|];
      forall i | 0 <= i <= |s[1..]| ensures !OccursAt(s[1..], pat, i) {
        if i + |pat| <= |s[1..]| {
          assert !OccursAt(s, pat, i + 1);
          assert s[1..][i..i + |pat|] == s[i + 1..i + 1 + |pat|];
        }
      }
      ReplaceAllNoOccurrence(s[1..], pat, rep);
      assert [s[0]] + s[1..] == s;
    }
  }

  /**
   * Text up to the first occurrence of `pat` is copied, that occurrence becomes `rep`, and the
   * replacement goes on after it: with ReplaceAllNoOccurrence this characterises ReplaceAll.
   */
  lemma {:induction false} ReplaceAllFirstOccurrence(a: string, pat: string, b: string, rep: string)
    requires |pat| > 0
    requires forall i :: 0 <= i < |a| ==> !OccursAt(a + pat + b, pat, i)
    ensures ReplaceAll(a + pat + b, pat, rep) == a + rep + ReplaceAll(b, pat, rep)
    decreases |a|
  {
    var s := a + pat + b;
    if a == [] {
      assert s == pat + b;
      assert s[..|pat|] == pat;
      assert s[|pat|..] == b;
    } else {
      var s' := a[1..] + pat + b;
      assert s[1..] == s';
      assert s[..|pat|] != pat by {
        assert !OccursAt(s, pat, 0);
        assert s[0..|pat|] == s[..|pat|];
      }
      assert ReplaceAll(s, pat, rep) == [s[0]] + ReplaceAll(s', pat, rep);
      forall i | 0 <= i < |a[1..]| ensures !OccursAt(s', pat, i) {
        assert !OccursAt(s, pat, i + 1);
        assert s'[i..i + |pat|] == s[i + 1..i + 1 + |pat|];
      }
      ReplaceAllFirstOccurrence(a[1..], pat, b, rep);
      calc {
        ReplaceAll(s, pat, rep);
        [a[0]] + (a[1..] + rep + ReplaceAll(b, pat, rep));
        { assert [a[0]] + a[1..] == a; }
        a + rep + ReplaceAll(b, pat, rep);
      }
    }
  }

  /** A character that cannot start `pat` is copied. */
  lemma ReplaceAllCopies(c: char, s: string, pat: string, rep: string)
    requires |pat| > 0 && c != pat[0]
    ensures ReplaceAll([c] + s, pat, rep) == [c] + ReplaceAll(s, pat, rep)
  {
    var t := [c] + s;
    if |t| >= |pat| { assert t[..|pat|][0] == c; }
    assert t[1..] == s;
  }

  lemma ReplaceAllSchemeSeparator(rest: string)
    ensures ReplaceAll("://" + rest, "http", "https") == "://" + ReplaceAll(rest, "http", "https")
  {
    assert "/" + ("/" + rest) == "//" + rest;
    assert ":" + ("//" + rest) == "://" + rest;
    ReplaceAllCopies('/', rest, "http", "https");
    ReplaceAllCopies('/', "/" + rest, "http", "https");
    ReplaceAllCopies(':', "//" + rest, "http", "https");
  }

  /**
   * The replace-all the KuGou and Netease adapters apply to upstream URLs turns a plain
   * `http://` URL into `https://`, and an `https://` URL into `httpss://`.
   */
  lemma HttpUpgrade(rest: string)
    ensures ReplaceAll("http://" + rest, "http", "https") == "https://" + ReplaceAll(rest, "http", "https")
    ensures ReplaceAll("https://" + rest, "http", "https") == "httpss://" + ReplaceAll(rest, "http", "https")
  {
    var r := ReplaceAll(rest, "http", "https");
    ReplaceAllSchemeSeparator(rest);
    HttpPrefix("://" + rest);
    assert "http" + ("://" + rest) == "http://" + rest;
    assert "https" + ("://" + r) == "https://" + r;
    SecureUpgrade(rest);
  }

  /** The `http` of `https://` is replaced once more, giving `httpss://`. */
  lemma SecureUpgrade(rest: string)
    ensures ReplaceAll("https://" + rest, "http", "https") == "httpss://" + ReplaceAll(rest, "http", "https")
  {
    var r := ReplaceAll(rest, "http", "https");
    ReplaceAllSchemeSeparator(rest);
    HttpPrefix("s://" + rest);
    assert "http" + ("s://" + rest) == "https://" + rest;
    ReplaceAllCopies('s', "://" + rest, "http", "https");
    assert "s" + ("://" + rest) == "s://" + rest;
    assert "https" + ("s" + ("://" + r)) == "httpss://" + r;
  }

  lemma HttpPrefix(s: string)
    ensures ReplaceAll("http" + s, "http", "https") == "https" + ReplaceAll(s, "http", "https")
  {
    var t := "http" + s;
    assert t[..4] == "http" && t[4..] == s;
  }

  // ---------------------------------------------------------------- integers

  function DigitChar(d: nat): (c: char)
    requires d < 10
    ensures IsAsciiDigit(c)
  {
    ('0' as int + d) as char
  }

  /** The value of a run of decimal digits. */
  function DigitsValue(s: string): nat
    requires AllDigits(s)
    decreases |s|
  {
    if s == [] then 0 else 10 * DigitsValue(s[..|s| - 1]) + (s[|s| - 1] as int - '0' as int)
  }

  /** long.ToString() / int.ToString() of a non-negative value. */
  function NatToString(n: nat): (s: string)
    decreases n
  {
    if n < 10 then [DigitChar(n)] else NatToString(n / 10) + [DigitChar(n % 10)]
  }

  /** long.ToString() / int.ToString() in the invariant culture. */
  function IntToString(i: int): string {
    if i < 0 then "-" + NatToString(-i) else NatToString(i)
  }

  lemma {:induction false} NatToStringDigits(n: nat)
    ensures |NatToString(n)| > 0 && AllDigits(NatToString(n))
    ensures DigitsValue(NatToString(n)) == n
    decreases n
  {
    if n >= 10 {
      NatToStringDigits(n / 10);
      var s := NatToString(n / 10) + [DigitChar(n % 10)];
      assert s[..|s| - 1] == NatToString(n / 10);
    }
  }

  /** Decimal renderings contain no character other than digits and a leading minus sign. */
  lemma IntToStringChars(i: int)
    ensures |IntToString(i)| > 0
    ensures forall k :: 0 <= k < |IntToString(i)| ==>
      IsAsciiDigit(IntToString(i)[k]) || (k == 0 && i < 0 && IntToString(i)[k] == '-')
  {
    if i < 0 { NatToStringDigits(-i); } else { NatToStringDigits(i); }
  }

  function TrimStartNumberWhite(s: string): (t: string)
    ensures |t| <= |s| && t == s[|s| - |t|..]
    ensures t == [] || !IsNumberWhite(t[0])
    decreases |s|
  {
    if s != [] && IsNumberWhite(s[0]) then TrimStartNumberWhite(s[1..]) else s
  }

  function TrimEndNumberWhite(s: string): (t: string)
    ensures |t| <= |s| && t == s[..|t|]
    ensures t == [] || !IsNumberWhite(t[|t| - 1])
    decreases |s|
  {
    if s != [] && IsNumberWhite(s[|s| - 1]) then TrimEndNumberWhite(s[..|s| - 1]) else s
  }

  /** A sign followed by digits, or digits alone, read as an integer. */
  function ParseSignedDigits(t: string): (r: Option<int>)
    ensures r.Some? ==> |t| >= 1 && (IsAsciiDigit(t[0]) || t[0] == '+' || t[0] == '-')
    ensures r.Some? ==> forall k :: 1 <= k < |t| ==> IsAsciiDigit(t[k])
    ensures r.Some? && r.value < 0 ==> t[0] == '-'
  {
    var signed := |t| > 0 && (t[0] == '+' || t[0] == '-');
    var digits := if signed then t[1..] else t;
    if |digits| == 0 || !AllDigits(digits) then None
    else
      var n: int := DigitsValue(digits);
      Some(if signed && t[0] == '-' then -n else n)
  }

  /**
   * Convert.ToInt64(string) / int.TryParse(string) with NumberStyles.Integer:
   * optional white space, an optional sign, one or more ASCII digits, optional white space,
   * and a value inside [lo, hi] (outside it .NET reports an overflow). None stands for the
   * FormatException / OverflowException, or for TryParse returning false.
   */
  function ParseInteger(s: string, lo: int, hi: int): (r: Option<int>)
    ensures r.Some? ==> lo <= r.value <= hi
  {
    match ParseSignedDigits(TrimEndNumberWhite(TrimStartNumberWhite(s)))
    case Some(v) => if lo <= v <= hi then Some(v) else None
    case None => None
  }

  lemma ParseSignedDigitsRoundTrip(i: int)
    ensures ParseSignedDigits(IntToString(i)) == Some(i)
  {
    var s := IntToString(i);
    if i < 0 {
      NatToStringDigits(-i);
      assert s[0] == '-' && s[1..] == NatToString(-i);
    } else {
      NatToStringDigits(i);
      assert s[0] != '+' && s[0] != '-';
    }
  }

  lemma TrimRenderedInteger(i: int)
    ensures TrimEndNumberWhite(TrimStartNumberWhite(IntToString(i))) == IntToString(i)
  {
    var s := IntToString(i);
    var m: nat := if i < 0 then -i else i;
    var d := NatToString(m);
    NatToStringDigits(m);
    assert s == (if i < 0 then "-" else "") + d;
    assert s[|s| - 1] == d[|d| - 1];
    TrimStartNoop(s);
    TrimEndNoop(s);
  }

  /** Parsing gives back every rendered integer inside the range. */
  lemma ParseIntegerRoundTrip(i: int, lo: int, hi: int)
    requires lo <= i <= hi
    ensures ParseInteger(IntToString(i), lo, hi) == Some(i)
  {
    TrimRenderedInteger(i);
    ParseSignedDigitsRoundTrip(i);
    var t := TrimEndNumberWhite(TrimStartNumberWhite(IntToString(i)));
    assert t == IntToString(i);
    assert ParseSignedDigits(t) == Some(i);
  }

  lemma TrimStartNoop(s: string)
    requires s == [] || !IsNumberWhite(s[0])
    ensures TrimStartNumberWhite(s) == s
  {
  }

  lemma TrimEndNoop(s: string)
    requires s == [] || !IsNumberWhite(s[|s| - 1])
    ensures TrimEndNumberWhite(s) == s
  {
  }

  /** Text that holds anything besides white space, a sign and digits does not parse. */
  lemma ParseIntegerRejectsOthers(s: string, lo: int, hi: int)
    requires ParseInteger(s, lo, hi).Some?
    ensures forall k :: 0 <= k < |s| ==> IsNumberWhite(s[k]) || IsAsciiDigit(s[k]) || s[k] == '+' || s[k] == '-'
  {
    var t0 := TrimStartNumberWhite(s);
    var t := TrimEndNumberWhite(t0);
    assert ParseSignedDigits(t).Some?;
    TrimStartStrips(s);
    TrimEndStrips(t0);
    var off := |s| - |t0|;
    forall k | 0 <= k < |s|
      ensures IsNumberWhite(s[k]) || IsAsciiDigit(s[k]) || s[k] == '+' || s[k] == '-'
    {
      if off <= k {
        assert s[k] == t0[k - off];
        if k - off < |t| {
          assert t0[k - off] == t[k - off];
        }
      }
    }
  }

  lemma {:induction false} TrimStartStrips(s: string)
    ensures forall k :: 0 <= k < |s| - |TrimStartNumberWhite(s)| ==> IsNumberWhite(s[k])
    decreases |s|
  {
    if s != [] && IsNumberWhite(s[0]) {
      TrimStartStrips(s[1..]);
      forall k | 1 <= k < |s| - |TrimStartNumberWhite(s)| ensures IsNumberWhite(s[k]) {
        assert s[k] == s[1..][k - 1];
      }
    }
  }

  lemma {:induction false} TrimEndStrips(s: string)
    ensures forall k :: |TrimEndNumberWhite(s)| <= k < |s| ==> IsNumberWhite(s[k])
    decreases |s|
  {
    if s != [] && IsNumberWhite(s[|s| - 1]) {
      TrimEndStrips(s[..|s| - 1]);
    }
  }
}
