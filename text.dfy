/** String helpers with the JavaScript semantics the application relies on:
    case folding for searches, `includes`, `startsWith`, `trim`, `split`/`join`,
    number formatting and `parseInt`. Strings are sequences of Unicode
    characters; `Utf16Length` counts them as JavaScript's `length` does. */
module Text {

  datatype Option<T> = None | Some(value: T)

  // ---------------------------------------------------------------------------
  // Characters

  predicate IsDigit(c: char) { '0' <= c <= '9' }

  function DigitValue(c: char): (v: nat)
    requires IsDigit(c)
    ensures v < 10
  {
    (c as int - '0' as int) as nat
  }

  function DigitChar(v: nat): (c: char)
    requires v < 10
    ensures IsDigit(c) && DigitValue(c) == v
  {
    ('0' as int + v) as char
  }

  /** Capital letters whose lower case is the letter 32 code points on: the
      Latin letters of ASCII and Latin-1 (U+00C0 to U+00DE without the
      multiplication sign), the Greek capitals Α to Ϋ (U+0391 to U+03AB)
      other than sigma, the Cyrillic capitals А to Я (U+0410 to U+042F) and
      the full-width Latin capitals Ａ to Ｚ (U+FF21 to U+FF3A). */
  predicate IsShift32Capital(c: char)
  {
    || ('A' <= c <= 'Z')
    || ('\U{00C0}' <= c <= '\U{00DE}' && c != '\U{00D7}')
    || ('\U{0391}' <= c <= '\U{03AB}' && c != '\U{03A2}' && c != '\U{03A3}')
    || ('\U{0410}' <= c <= '\U{042F}')
    || ('\U{FF21}' <= c <= '\U{FF3A}')
  }

  /** Capitals whose lower case is the next code point: the paired letters
      of Latin Extended-A (U+0100 to U+017D) and of the Cyrillic block from
      Ѡ on (U+0460 to U+04FF). */
  predicate IsPairCapital(c: char)
  {
    || (('\U{0100}' <= c <= '\U{012E}' || '\U{0132}' <= c <= '\U{0136}' || '\U{014A}' <= c <= '\U{0176}'
         || '\U{0460}' <= c <= '\U{0480}' || '\U{048A}' <= c <= '\U{04BE}' || '\U{04D0}' <= c <= '\U{04FE}')
        && c as int % 2 == 0)
    || (('\U{0139}' <= c <= '\U{0147}' || '\U{0179}' <= c <= '\U{017D}' || '\U{04C1}' <= c <= '\U{04CD}')
        && c as int % 2 == 1)
  }

  /** Capitals lowered to a letter at no shared distance: Ÿ, the Greek
      capitals with tonos, and the Cyrillic palochka. */
  const LoneCapitals: map<char, char> := map[
    '\U{0178}' := '\U{00FF}', '\U{0386}' := '\U{03AC}', '\U{0388}' := '\U{03AD}',
    '\U{0389}' := '\U{03AE}', '\U{038A}' := '\U{03AF}', '\U{038C}' := '\U{03CC}',
    '\U{038E}' := '\U{03CD}', '\U{038F}' := '\U{03CE}', '\U{04C0}' := '\U{04CF}']

  /** The Cyrillic capitals Ѐ to Џ, whose lower case is 80 code points on. */
  predicate IsShift80Capital(c: char)
  {
    '\U{0400}' <= c <= '\U{040F}'
  }

  /** `toLowerCase` of a single character, for the capitals above, each of
      whose lower case is one character; every other character is kept. */
  function Lower(c: char): (r: char)
    ensures IsShift32Capital(c) ==> r as int == c as int + 32
    ensures IsShift80Capital(c) ==> r as int == c as int + 80
    ensures IsPairCapital(c) ==> r as int == c as int + 1
    ensures c in LoneCapitals ==> r == LoneCapitals[c]
    ensures !IsShift32Capital(c) && !IsShift80Capital(c) && !IsPairCapital(c) && c !in LoneCapitals ==> r == c
  {
    if IsShift32Capital(c) then (c as int + 32) as char
    else if IsShift80Capital(c) then (c as int + 80) as char
    else if IsPairCapital(c) then (c as int + 1) as char
    else if c in LoneCapitals then LoneCapitals[c]
    else c
  }

  /** "É" lowers to "é", "Д" to "д", "A" to "a", "Ϋ" to "ϋ", "Ό" to "ό",
      "Ґ" to "ґ", "Ā" to "ā", "Ÿ" to "ÿ" and "Ｑ" to "ｑ"; "ς" and "1" are kept. */
  lemma LowerExamples()
    ensures Lower('\U{00C9}') == '\U{00E9}'
    ensures Lower('\U{0414}') == '\U{0434}'
    ensures Lower('A') == 'a'
    ensures Lower('\U{03AB}') == '\U{03CB}'
    ensures Lower('\U{038C}') == '\U{03CC}'
    ensures Lower('\U{0490}') == '\U{0491}'
    ensures Lower('\U{0100}') == '\U{0101}'
    ensures Lower('\U{0178}') == '\U{00FF}'
    ensures Lower('\U{FF31}') == '\U{FF51}'
    ensures Lower('\U{03C2}') == '\U{03C2}' && Lower('1') == '1'
  {
  }

  function ToLower(s: string): (r: string)
    ensures |r| == |s|
    ensures forall i :: 0 <= i < |s| ==> r[i] == Lower(s[i])
  {
    seq(|s|, i requires 0 <= i < |s| => Lower(s[i]))
  }

  /** The white space and line terminators that `String.prototype.trim` and
      `parseInt` skip (ECMAScript's WhiteSpace and LineTerminator sets). */
  predicate IsWhite(c: char)
  {
    c == ' ' || c == '\t' || c == '\n' || c == '\r' || c == '\U{000B}' || c == '\U{000C}'
    || c == '\U{00A0}' || c == '\U{1680}' || ('\U{2000}' <= c <= '\U{200A}')
    || c == '\U{2028}' || c == '\U{2029}' || c == '\U{202F}' || c == '\U{205F}'
    || c == '\U{3000}' || c == '\U{FEFF}'
  }

  // ---------------------------------------------------------------------------
  // Searching

  /** `s.includes(q)` */
  predicate Contains(s: string, q: string)
  {
    exists i | 0 <= i <= |s| - |q| :: OccursAt(s, q, i)
  }

  predicate OccursAt(s: string, q: string, i: int)
  {
    0 <= i <= |s| - |q| && s[i..i + |q|] == q
  }

  /** `s.startsWith(p)` */
  predicate StartsWith(s: string, p: string)
  {
    |p| <= |s| && s[..|p|] == p
  }

  /** Case-insensitive `includes`, as in `a.toLowerCase().includes(q.toLowerCase())`. */
  predicate ContainsIgnoreCase(s: string, q: string)
  {
    Contains(ToLower(s), ToLower(q))
  }

  lemma {:induction false} EmptyIsContained(s: string)
    ensures Contains(s, "")
  {
    assert OccursAt(s, "", 0);
  }

  lemma {:induction false} StartsWithTransitive(a: string, b: string, c: string)
    requires StartsWith(a, b) && StartsWith(b, c)
    ensures StartsWith(a, c)
  {
    assert a[..|c|] == a[..|b|][..|c|];
  }

  // ---------------------------------------------------------------------------
  // Lexicographic order (plain code-unit order, as `<` on strings)

  predicate LexLe(a: string, b: string)
    decreases |a|
  {
    if a == [] then true
    else if b == [] then false
    else if a[0] != b[0] then a[0] < b[0]
    else LexLe(a[1..], b[1..])
  }

  predicate LexLt(a: string, b: string) { LexLe(a, b) && a != b }

  lemma {:induction false} LexLeTotal(a: string, b: string)
    ensures LexLe(a, b) || LexLe(b, a)
    decreases |a|
  {
    if a != [] && b != [] && a[0] == b[0] {
      LexLeTotal(a[1..], b[1..]);
    }
  }

  lemma {:induction false} LexLeTransitive(a: string, b: string, c: string)
    requires LexLe(a, b) && LexLe(b, c)
    ensures LexLe(a, c)
    decreases |a|
  {
    if a != [] && b != [] && c != [] && a[0] == b[0] && b[0] == c[0] {
      LexLeTransitive(a[1..], b[1..], c[1..]);
    }
  }

  lemma {:induction false} LexLeAntisymmetric(a: string, b: string)
    requires LexLe(a, b) && LexLe(b, a)
    ensures a == b
    decreases |a|
  {
    if a != [] && b != [] {
      LexLeAntisymmetric(a[1..], b[1..]);
      assert a == [a[0]] + a[1..];
      assert b == [b[0]] + b[1..];
    }
  }

  /** A prefix sorts no later than any extension of it. */
  lemma {:induction false} PrefixLexLe(a: string, b: string)
    requires StartsWith(b, a)
    ensures LexLe(a, b)
    decreases |a|
  {
    if a != [] {
      assert b[1..][..|a| - 1] == b[..|a|][1..];
      PrefixLexLe(a[1..], b[1..]);
    }
  }

  /** A string that sorts between two extensions of a common prefix extends
      that prefix as well. */
  lemma {:induction false} BetweenSharesPrefix(p: string, a: string, b: string, s: string)
    requires LexLe(p + a, s) && LexLe(s, p + b)
    ensures StartsWith(s, p)
    decreases |p|
  {
    if p != [] {
      assert (p + a)[0] == p[0] && (p + a)[1..] == p[1..] + a;
      assert (p + b)[0] == p[0] && (p + b)[1..] == p[1..] + b;
      BetweenSharesPrefix(p[1..], a, b, s[1..]);
      assert s[..|p|] == [s[0]] + s[1..][..|p| - 1];
      assert p == [p[0]] + p[1..];
    }
  }

  // ---------------------------------------------------------------------------
  // Trimming

  function TrimStart(s: string): (r: string)
    ensures |r| <= |s| && r == s[|s| - |r|..]
    ensures r == [] || !IsWhite(r[0])
    ensures forall i :: 0 <= i < |s| - |r| ==> IsWhite(s[i])
  {
    if s != [] && IsWhite(s[0]) then TrimStart(s[1..]) else s
  }

  function TrimEnd(s: string): (r: string)
    ensures |r| <= |s| && r == s[..|r|]
    ensures r == [] || !IsWhite(r[|r| - 1])
    ensures forall i :: |r| <= i < |s| ==> IsWhite(s[i])
  {
    if s != [] && IsWhite(s[|s| - 1]) then TrimEnd(s[..|s| - 1]) else s
  }

  /** `s.trim()` */
  function Trim(s: string): string
  {
    TrimEnd(TrimStart(s))
  }

  predicate NoEdgeWhite(s: string)
  {
    s == [] || (!IsWhite(s[0]) && !IsWhite(s[|s| - 1]))
  }

  /** Trimming leaves a piece of the input without white space at either end,
      and does not touch a string that has none there. */
  lemma {:induction false} TrimSpec(s: string)
    ensures NoEdgeWhite(Trim(s))
    ensures exists i, j :: 0 <= i <= j <= |s| && Trim(s) == s[i..j]
    ensures NoEdgeWhite(s) ==> Trim(s) == s
  {
    var t := TrimStart(s);
    var r := TrimEnd(t);
    assert r == s[|s| - |t|..][..|r|];
    assert r == s[|s| - |t|..|s| - |t| + |r|];
    if r != [] {
      assert r[0] == t[0];
    }
    if NoEdgeWhite(s) && s != [] {
      assert t == s;
    }
  }

  lemma TrimIdempotent(s: string)
    ensures Trim(Trim(s)) == Trim(s)
  {
    TrimSpec(s);
    TrimSpec(Trim(s));
  }

  /** A string is blank when it holds only white space; `BlankIffTrimEmpty`
      shows that this is `!s.trim()`. */
  predicate IsBlank(s: string)
  {
    forall i :: 0 <= i < |s| ==> IsWhite(s[i])
  }

  /** Leading white space does not change the trimmed string. */
  lemma TrimAfterWhite(w: char, s: string)
    requires IsWhite(w)
    ensures Trim([w] + s) == Trim(s)
  {
    assert ([w] + s)[1..] == s;
  }

  lemma {:induction false} BlankIffTrimEmpty(s: string)
    ensures IsBlank(s) <==> Trim(s) == ""
  {
    var t := TrimStart(s);
    if t != [] {
      assert t[0] == s[|s| - |t|];
      assert TrimEnd(t)[0] == t[0] || TrimEnd(t) == [];
    }
  }

  // ---------------------------------------------------------------------------
  // Splitting and joining

  function IndexOf(s: string, c: char): (i: nat)
    ensures i <= |s|
    ensures i < |s| ==> s[i] == c
    ensures forall k :: 0 <= k < i ==> s[k] != c
  {
    if s == [] then 0 else if s[0] == c then 0 else 1 + IndexOf(s[1..], c)
  }

  /** `s.split(c)` for a one-character separator. */
  function Split(s: string, c: char): (parts: seq<string>)
    ensures |parts| >= 1
    ensures forall k :: 0 <= k < |parts| ==> c !in parts[k]
    decreases |s|
  {
    var i := IndexOf(s, c);
    if i == |s| then [s] else [s[..i]] + Split(s[i + 1..], c)
  }

  /** `parts.join(sep)` */
  function Join(parts: seq<string>, sep: string): string
  {
    if parts == [] then ""
    else if |parts| == 1 then parts[0]
    else parts[0] + sep + Join(parts[1..], sep)
  }

  /** Splitting on a character and joining with it again gives the string back. */
  lemma {:induction false} JoinSplit(s: string, c: char)
    ensures Join(Split(s, c), [c]) == s
    decreases |s|
  {
    var i := IndexOf(s, c);
    if i < |s| {
      var rest := Split(s[i + 1..], c);
      assert Split(s, c) == [s[..i]] + rest;
      JoinSplit(s[i + 1..], c);
      assert Join([s[..i]] + rest, [c]) == s[..i] + [c] + Join(rest, [c]) by {
        assert ([s[..i]] + rest)[1..] == rest;
      }
      assert s == s[..i] + [c] + s[i + 1..];
    }
  }

  /** Joining pieces that do not contain the separator and splitting again gives
      the pieces back. */
  lemma {:induction false} SplitJoin(parts: seq<string>, c: char)
    requires |parts| >= 1
    requires forall k :: 0 <= k < |parts| ==> c !in parts[k]
    ensures Split(Join(parts, [c]), c) == parts
    decreases |parts|
  {
    var s := Join(parts, [c]);
    var p := parts[0];
    assert IndexOf(p, c) == |p|;
    if |parts| == 1 {
    } else {
      SplitJoin(parts[1..], c);
      assert s == p + [c] + Join(parts[1..], [c]);
      IndexOfAfter(p, c, Join(parts[1..], [c]));
      assert s[|p| + 1..] == Join(parts[1..], [c]);
      assert s[..|p|] == p;
    }
  }

  /** A prefix glued in front of a join belongs to the first piece. */
  lemma {:induction false} JoinPrefix(p: string, parts: seq<string>, sep: string)
    requires |parts| >= 1
    ensures p + Join(parts, sep) == Join([p + parts[0]] + parts[1..], sep)
  {
    var q := [p + parts[0]] + parts[1..];
    assert q[1..] == parts[1..];
  }

  /** A character in no piece and not in the separator is not in the join. */
  lemma {:induction false} JoinWithout(parts: seq<string>, sep: string, c: char)
    requires forall k :: 0 <= k < |parts| ==> c !in parts[k]
    requires c !in sep
    ensures c !in Join(parts, sep)
    decreases |parts|
  {
    if |parts| > 1 {
      JoinWithout(parts[1..], sep, c);
    }
  }

  /** The join starts with the first piece and ends with the last one. */
  lemma {:induction false} JoinEnds(parts: seq<string>, sep: string)
    requires |parts| >= 1
    ensures var j := Join(parts, sep);
      |j| >= |parts[0]| && j[..|parts[0]|] == parts[0]
      && |j| >= |parts[|parts| - 1]| && j[|j| - |parts[|parts| - 1]|..] == parts[|parts| - 1]
    decreases |parts|
  {
    if |parts| > 1 {
      JoinEnds(parts[1..], sep);
      var j := Join(parts, sep);
      var t := Join(parts[1..], sep);
      assert j == parts[0] + sep + t;
      assert j[..|parts[0]|] == parts[0];
      assert j[|j| - |t|..] == t;
    }
  }

  lemma {:induction false} IndexOfAfter(p: string, c: char, rest: string)
    requires c !in p
    ensures IndexOf(p + [c] + rest, c) == |p|
    decreases |p|
  {
    if p != [] {
      assert (p + [c] + rest)[1..] == p[1..] + [c] + rest;
      IndexOfAfter(p[1..], c, rest);
    }
  }

  // ---------------------------------------------------------------------------
  // Length

  /** `s.length`: the number of UTF-16 code units, two for a character
      outside the Basic Multilingual Plane and one for any other. */
  function Utf16Length(s: string): (n: nat)
    ensures |s| <= n <= 2 * |s|
    ensures (forall k :: 0 <= k < |s| ==> s[k] as int <= 0xFFFF) ==> n == |s|
  {
    if s == [] then 0 else (if s[0] as int > 0xFFFF then 2 else 1) + Utf16Length(s[1..])
  }

  /** Two emoji are two characters but four code units. */
  lemma EmojiPair()
    ensures |"\U{1F600}\U{1F600}"| == 2 && Utf16Length("\U{1F600}\U{1F600}") == 4
  {
    var e := "\U{1F600}\U{1F600}";
    assert e[1..] == "\U{1F600}";
    assert e[1..][1..] == "";
  }

  // ---------------------------------------------------------------------------
  // Numbers

  /** Decimal digits of a natural number, as `String(n)`. */
  function NatToString(n: nat): (s: string)
    ensures |s| >= 1
    ensures forall k :: 0 <= k < |s| ==> IsDigit(s[k])
  {
    if n < 10 then [DigitChar(n)] else NatToString(n / 10) + [DigitChar(n % 10)]
  }

  /** `String(n)` for any integer. */
  function IntToString(n: int): string
  {
    if n < 0 then "-" + NatToString(-n) else NatToString(n)
  }

  /** `String(n).padStart(2, '0')` */
  function Pad2(n: nat): string
  {
    if n < 10 then "0" + NatToString(n) else NatToString(n)
  }

  /** `String(n).padStart(4, '0')`, as `toISOString` writes a year. */
  function Pad4(n: nat): string
  {
    if n < 10 then "000" + NatToString(n)
    else if n < 100 then "00" + NatToString(n)
    else if n < 1000 then "0" + NatToString(n)
    else NatToString(n)
  }

  /** Value of a string of decimal digits, read most significant first. */
  function DigitsValue(s: string): nat
    requires forall k :: 0 <= k < |s| ==> IsDigit(s[k])
  {
    if s == [] then 0 else DigitsValue(s[..|s| - 1]) * 10 + DigitValue(s[|s| - 1])
  }

  lemma {:induction false} DigitsOfNat(n: nat)
    ensures DigitsValue(NatToString(n)) == n
  {
    if n >= 10 {
      DigitsOfNat(n / 10);
      var s := NatToString(n);
      assert s[..|s| - 1] == NatToString(n / 10);
    }
  }

  /** The longest run of digits at the front of `s`. */
  function DigitPrefix(s: string): (p: string)
    ensures |p| <= |s| && p == s[..|p|]
    ensures forall k :: 0 <= k < |p| ==> IsDigit(p[k])
    ensures |p| < |s| ==> !IsDigit(s[|p|])
  {
    if s != [] && IsDigit(s[0]) then [s[0]] + DigitPrefix(s[1..]) else []
  }

  predicate IsHexDigit(c: char) { IsDigit(c) || 'a' <= c <= 'f' || 'A' <= c <= 'F' }

  function HexDigitValue(c: char): (v: nat)
    requires IsHexDigit(c)
    ensures v < 16
  {
    if IsDigit(c) then DigitValue(c)
    else if 'a' <= c <= 'f' then (c as int - 'a' as int + 10) as nat
    else (c as int - 'A' as int + 10) as nat
  }

  /** Value of a string of hexadecimal digits, read most significant first. */
  function HexValue(s: string): nat
    requires forall k :: 0 <= k < |s| ==> IsHexDigit(s[k])
  {
    if s == [] then 0 else HexValue(s[..|s| - 1]) * 16 + HexDigitValue(s[|s| - 1])
  }

  /** The longest run of hexadecimal digits at the front of `s`. */
  function HexPrefix(s: string): (p: string)
    ensures |p| <= |s| && p == s[..|p|]
    ensures forall k :: 0 <= k < |p| ==> IsHexDigit(p[k])
    ensures |p| < |s| ==> !IsHexDigit(s[|p|])
  {
    if s != [] && IsHexDigit(s[0]) then [s[0]] + HexPrefix(s[1..]) else []
  }

  /** Whether the text after the sign starts with "0x" or "0X", which makes
      `parseInt` without a radix read hexadecimal. */
  predicate HexMarked(body: string)
  {
    |body| >= 2 && body[0] == '0' && (body[1] == 'x' || body[1] == 'X')
  }

  /** `parseInt(s)` without a radix: leading white space, an optional sign,
      then either "0x"/"0X" and the longest run of hexadecimal digits, or
      the longest run of decimal digits; `None` stands for `NaN` (no digit
      at all). */
  function ParseInt(s: string): (r: Option<int>)
  {
    var t := TrimStart(s);
    var neg := t != [] && t[0] == '-';
    var body := if t != [] && (t[0] == '-' || t[0] == '+') then t[1..] else t;
    var digits := if HexMarked(body) then HexPrefix(body[2..]) else DigitPrefix(body);
    var v: int := if digits == [] then 0 else if HexMarked(body) then HexValue(digits) else DigitsValue(digits);
    if digits == [] then None
    else if neg then Some(-v)
    else Some(v)
  }

  /** "0x1A" reads as twenty-six, where a decimal reading would give 0. */
  lemma ParseIntHex()
    ensures ParseInt("0x1A") == Some(26)
  {
    var s := "0x1A";
    assert !IsWhite(s[0]);
    assert TrimStart(s) == s;
    assert HexMarked(s);
    assert s[2..] == "1A";
    HexOneA();
  }

  lemma HexOneA()
    ensures HexPrefix("1A") == "1A" && HexValue("1A") == 26
  {
    var h := "1A";
    assert IsHexDigit(h[0]) && IsHexDigit(h[1]);
    assert h[1..] == "A" && h[1..][1..] == [];
    assert h[..1] == "1";
    assert HexValue("1") == 1;
  }

  lemma {:induction false} DigitPrefixOfDigits(s: string)
    requires forall k :: 0 <= k < |s| ==> IsDigit(s[k])
    ensures DigitPrefix(s) == s
  {
    if s != [] {
      DigitPrefixOfDigits(s[1..]);
    }
  }

  /** `parseInt(String(n))` gives `n` back. */
  lemma {:induction false} ParseIntNatToString(n: nat)
    ensures ParseInt(NatToString(n)) == Some(n)
  {
    var s := NatToString(n);
    assert IsDigit(s[0]);
    assert TrimStart(s) == s;
    assert s[0] != '-' && s[0] != '+';
    assert !HexMarked(s) by {
      if |s| >= 2 {
        assert IsDigit(s[1]);
      }
    }
    DigitPrefixOfDigits(s);
    assert DigitPrefix(s) == s;
    DigitsOfNat(n);
  }

  /** `parseInt(s) || d`: a missing number and zero both fall back to `d`. */
  function ParseIntOr(s: string, d: int): (r: int)
    ensures ParseInt(s).None? ==> r == d
    ensures ParseInt(s).Some? && ParseInt(s).value != 0 ==> r == ParseInt(s).value
  {
    match ParseInt(s)
    case Some(v) => if v != 0 then v else d
    case None => d
  }

  /** `parseInt(String(n)) || d` is `n` for a positive `n`. */
  lemma ParseIntOrPositive(n: nat, d: int)
    requires n > 0
    ensures ParseIntOr(NatToString(n), d) == n
  {
    ParseIntNatToString(n);
  }

  // ---------------------------------------------------------------------------
  // JavaScript truthiness of an optional string

  /** `o || ""` */
  function OrEmpty(o: Option<string>): string
  {
    if o.Some? then o.value else ""
  }

  /** `${o}` in a template literal: an absent value prints as "undefined". */
  function Shown(o: Option<string>): string
  {
    if o.Some? then o.value else "undefined"
  }

  /** `!!o` */
  predicate Truthy(o: Option<string>) { o.Some? && o.value != "" }
}
