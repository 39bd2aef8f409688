/** Texts built from parts (numbers, joined names, quoted strings), and how each of their parts is read back. */
module Texts {
  import opened Prelude

  // ---------------------------------------------------------------- cutting

  /** The part before the first separator can be read off. */
  lemma CutAt<T>(a: seq<T>, sep: T, x: seq<T>, b: seq<T>, y: seq<T>)
    requires sep !in a && sep !in b && a + [sep] + x == b + [sep] + y
    ensures a == b && x == y
  {
    var s, t := a + [sep] + x, b + [sep] + y;
    assert s[|a|] == sep && t[|b|] == sep;
    assert forall i :: 0 <= i < |a| ==> s[i] == a[i];
    assert forall i :: 0 <= i < |b| ==> t[i] == b[i];
    assert |a| == |b|;
    assert a == s[..|a|] && b == t[..|b|];
    assert x == s[|a| + 1..] && y == t[|b| + 1..];
  }

  lemma CutFixed<T>(a: seq<T>, x: seq<T>, b: seq<T>, y: seq<T>)
    requires |a| == |b| && a + x == b + y
    ensures a == b && x == y
  {
    assert a == (a + x)[..|a|] && b == (b + y)[..|b|];
    assert x == (a + x)[|a|..] && y == (b + y)[|b|..];
  }

  lemma Cancel<T>(prefix: seq<T>, a: seq<T>, b: seq<T>, suffix: seq<T>)
    requires prefix + a + suffix == prefix + b + suffix
    ensures a == b
  {
    assert |a| == |b|;
    assert forall i :: 0 <= i < |a| ==> (prefix + a + suffix)[|prefix| + i] == a[i];
    assert forall i :: 0 <= i < |b| ==> (prefix + b + suffix)[|prefix| + i] == b[i];
  }

  // ---------------------------------------------------------------- numbers

  /** Decimal digits, most significant first. */
  function Digits(n: nat): (ds: seq<nat>)
    ensures ds != [] && forall i :: 0 <= i < |ds| ==> ds[i] < 10
  {
    if n < 10 then [n] else Digits(n / 10) + [n % 10]
  }

  lemma {:induction false} DigitsInjective(m: nat, n: nat)
    requires Digits(m) == Digits(n)
    ensures m == n
    decreases m
  {
    var s, t := Digits(m), Digits(n);
    assert s[|s| - 1] == m % 10 && t[|t| - 1] == n % 10;
    if m < 10 {
      assert |s| == 1;
    } else {
      assert s[..|s| - 1] == Digits(m / 10);
      assert t[..|t| - 1] == Digits(n / 10);
      DigitsInjective(m / 10, n / 10);
    }
  }

  /** The number that digits stand for. */
  function Value(ds: seq<nat>): nat {
    if ds == [] then 0 else 10 * Value(ds[..|ds| - 1]) + ds[|ds| - 1]
  }

  lemma {:induction false} DigitsValue(n: nat)
    ensures Value(Digits(n)) == n
    decreases n
  {
    if n >= 10 {
      DigitsValue(n / 10);
      assert Digits(n)[..|Digits(n)| - 1] == Digits(n / 10);
    } else {
      assert Digits(n)[..0] == [];
    }
  }

  function DigitChar(d: nat): char
    requires d < 10
  {
    ('0' as int + d) as char
  }

  /** `str(n)`. */
  function Decimal(n: nat): (s: string)
    ensures s != "" && forall i :: 0 <= i < |s| ==> '0' <= s[i] <= '9'
  {
    var ds := Digits(n);
    seq(|ds|, i requires 0 <= i < |ds| => DigitChar(ds[i]))
  }

  /** Reading a decimal text digit by digit. */
  function ReadDecimal(s: string): Option<nat> {
    if s == "" then Some(0)
    else if !('0' <= s[|s| - 1] <= '9') then None
    else
      var before := ReadDecimal(s[..|s| - 1]);
      if before.None? then None else Some(10 * before.value + (s[|s| - 1] as int - '0' as int))
  }

  lemma {:induction false} ReadDigits(ds: seq<nat>, s: string)
    requires |s| == |ds| && forall i :: 0 <= i < |ds| ==> ds[i] < 10 && s[i] == DigitChar(ds[i])
    ensures ReadDecimal(s) == Some(Value(ds))
    decreases |ds|
  {
    if ds != [] {
      ReadDigits(ds[..|ds| - 1], s[..|s| - 1]);
    }
  }

  /** A decimal text reads back as its number, and has no zero in front unless it is "0". */
  lemma DecimalReads(n: nat)
    ensures ReadDecimal(Decimal(n)) == Some(n)
    ensures n > 0 ==> Decimal(n)[0] != '0'
  {
    DigitsValue(n);
    NoLeadingZero(n);
    ReadDigits(Digits(n), Decimal(n));
  }

  lemma DecimalInjective(m: nat, n: nat)
    requires Decimal(m) == Decimal(n)
    ensures m == n
  {
    var ds, es := Digits(m), Digits(n);
    forall i | 0 <= i < |ds|
      ensures ds[i] == es[i]
    {
      assert Decimal(m)[i] == DigitChar(ds[i]) && Decimal(n)[i] == DigitChar(es[i]);
    }
    assert ds == es;
    DigitsInjective(m, n);
  }

  /** `f"{n:02d}"`. */
  function Padded(n: nat): string {
    if n < 10 then "0" + Decimal(n) else Decimal(n)
  }

  lemma PaddedInjective(m: nat, n: nat)
    requires Padded(m) == Padded(n)
    ensures m == n
  {
    LeadingDigit(m);
    LeadingDigit(n);
    if m < 10 && n < 10 {
      Cancel("0", Decimal(m), Decimal(n), "");
    }
    DecimalInjective(m, n);
  }

  lemma {:induction false} LeadingDigit(n: nat)
    ensures n < 10 ==> |Decimal(n)| == 1
    ensures n >= 10 ==> Decimal(n)[0] != '0'
  {
    assert Decimal(n)[0] == DigitChar(Digits(n)[0]);
    NoLeadingZero(n);
  }

  lemma {:induction false} NoLeadingZero(n: nat)
    ensures n > 0 ==> Digits(n)[0] != 0
    decreases n
  {
    if n >= 10 {
      NoLeadingZero(n / 10);
    }
  }

  /** A padded number has two digits at least and reads back as that number. */
  lemma PaddedReads(n: nat)
    ensures |Padded(n)| >= 2 && ReadDecimal(Padded(n)) == Some(n)
  {
    DecimalReads(n);
    if n < 10 {
      assert Padded(n)[..1] == "0" && "0"[..0] == "";
      assert Decimal(n)[..0] == "";
    } else {
      assert |Decimal(n)| == |Digits(n)| > 1;
    }
  }

  /** A number behind a one-letter mark, or a dash for none. */
  function Marked(mark: char, n: Option<nat>): string {
    [mark] + if n.Some? then Decimal(n.value) else "-"
  }

  lemma MarkedInjective(mark: char, m: Option<nat>, n: Option<nat>)
    requires Marked(mark, m) == Marked(mark, n)
    ensures m == n
  {
    var x, y := if m.Some? then Decimal(m.value) else "-", if n.Some? then Decimal(n.value) else "-";
    Cancel([mark], x, y, "");
    assert x[0] == y[0];
    if m.Some? && n.Some? {
      DecimalInjective(m.value, n.value);
    }
  }

  // ---------------------------------------------------------------- joined parts

  predicate SlashFree(s: string) {
    '/' !in s
  }

  ghost predicate AllSlashFree(parts: seq<string>) {
    forall s :: s in parts ==> SlashFree(s)
  }

  /** A name that can stand between slashes where a missing one is written `aggregate`. */
  predicate Names(name: int -> string, a: int) {
    SlashFree(name(a)) && name(a) != "" && name(a) != "aggregate"
  }

  predicate SameName(name: int -> string, a: int, b: int) {
    name(a) == name(b)
  }

  /** Every number has such a name, and no two share it. */
  ghost predicate NamesDiffer(name: int -> string) {
    && (forall a :: Names(name, a))
    && (forall a, b :: SameName(name, a, b) ==> a == b)
  }

  /** `name or "aggregate"`. */
  function NameOr(name: int -> string, a: Option<int>): string {
    if a.Some? then name(a.value) else "aggregate"
  }

  lemma NameOrInjective(name: int -> string, a: Option<int>, b: Option<int>)
    requires NamesDiffer(name)
    ensures NameOr(name, a) == NameOr(name, b) ==> a == b
    ensures SlashFree(NameOr(name, a))
  {
    assert SlashFree("aggregate");
    if a.Some? {
      assert Names(name, a.value);
    }
    if b.Some? {
      assert Names(name, b.value);
    }
    if a.Some? && b.Some? {
      assert SameName(name, a.value, b.value) <==> name(a.value) == name(b.value);
    }
  }

  /** `"/".join(parts)`. */
  function Join(parts: seq<string>): string {
    if parts == [] then "" else if |parts| == 1 then parts[0] else parts[0] + "/" + Join(parts[1..])
  }

  /** Parts without slashes can be read back from their join. */
  lemma {:induction false} JoinInjective(a: seq<string>, b: seq<string>)
    requires |a| == |b| && AllSlashFree(a) && AllSlashFree(b) && Join(a) == Join(b)
    ensures a == b
    decreases |a|
  {
    if |a| > 1 {
      assert a[0] in a && b[0] in b;
      CutAt(a[0], '/', Join(a[1..]), b[0], Join(b[1..]));
      assert forall s :: s in a[1..] ==> s in a;
      assert forall s :: s in b[1..] ==> s in b;
      JoinInjective(a[1..], b[1..]);
      assert a == [a[0]] + a[1..] && b == [b[0]] + b[1..];
    }
  }

  /** The parts between slashes, read from the left. */
  function Split(s: string): (parts: seq<string>)
    ensures parts != []
    decreases |s|
  {
    if s == "" then [""]
    else
      var rest := Split(s[1..]);
      if s[0] == '/' then [""] + rest else [[s[0]] + rest[0]] + rest[1..]
  }

  lemma {:induction false} SplitPart(a: string, rest: string)
    requires SlashFree(a)
    ensures Split(a) == [a]
    ensures Split(a + "/" + rest) == [a] + Split(rest)
    decreases |a|
  {
    var s := a + "/" + rest;
    if a == "" {
      assert s[1..] == rest;
    } else {
      SplitPart(a[1..], rest);
      assert s[1..] == a[1..] + "/" + rest;
      assert a == [a[0]] + a[1..];
    }
  }

  /** Splitting at slashes gives back the joined parts. */
  lemma {:induction false} SplitJoin(parts: seq<string>)
    requires parts != [] && AllSlashFree(parts)
    ensures Split(Join(parts)) == parts
    decreases |parts|
  {
    assert parts[0] in parts;
    if |parts| == 1 {
      SplitPart(parts[0], "");
    } else {
      assert forall s :: s in parts[1..] ==> s in parts;
      SplitJoin(parts[1..]);
      SplitPart(parts[0], Join(parts[1..]));
      assert parts == [parts[0]] + parts[1..];
    }
  }

  // ---------------------------------------------------------------- quoted text

  function HexChar(d: nat): char
    requires d < 16
  {
    if d < 10 then DigitChar(d) else ('a' as int + d - 10) as char
  }

  /** How one character is written inside a JSON string that keeps non-ASCII text. */
  function Escape(c: char): (e: string)
    ensures e != ""
  {
    if c == '"' then "\\\""
    else if c == '\\' then "\\\\"
    else if c == '\n' then "\\n"
    else if c == '\r' then "\\r"
    else if c == '\t' then "\\t"
    else if c as int == 8 then "\\b"
    else if c as int == 12 then "\\f"
    else if c as int < 32 then "\\u00" + [HexChar(c as int / 16), HexChar(c as int % 16)]
    else [c]
  }

  /** No escape is the beginning of another. */
  lemma EscapeCut(c: char, x: string, d: char, y: string)
    requires Escape(c) + x == Escape(d) + y
    ensures c == d && x == y
  {
    var s, t := Escape(c) + x, Escape(d) + y;
    assert s[0] == Escape(c)[0] && t[0] == Escape(d)[0];
    if |Escape(c)| > 1 && |Escape(d)| > 1 {
      assert s[1] == Escape(c)[1] && t[1] == Escape(d)[1];
      if |Escape(c)| > 2 && |Escape(d)| > 2 {
        assert s[4] == Escape(c)[4] && t[4] == Escape(d)[4];
        assert s[5] == Escape(c)[5] && t[5] == Escape(d)[5];
        HexInjective(c as int / 16, d as int / 16);
        HexInjective(c as int % 16, d as int % 16);
      }
    }
    assert c == d;
    CutFixed(Escape(c), x, Escape(d), y);
  }

  lemma HexInjective(m: nat, n: nat)
    requires m < 16 && n < 16
    ensures HexChar(m) == HexChar(n) ==> m == n
  {
  }

  function Escaped(s: string): string {
    if s == "" then "" else Escape(s[0]) + Escaped(s[1..])
  }

  /** `json.dumps(s, ensure_ascii=False)` of a text. */
  function Quoted(s: string): string {
    "\"" + Escaped(s) + "\""
  }

  lemma {:induction false} EscapedInjective(a: string, b: string)
    requires Escaped(a) == Escaped(b)
    ensures a == b
    decreases |a|
  {
    if a != "" && b != "" {
      EscapeCut(a[0], Escaped(a[1..]), b[0], Escaped(b[1..]));
      EscapedInjective(a[1..], b[1..]);
      assert a == [a[0]] + a[1..] && b == [b[0]] + b[1..];
    }
  }

  lemma QuotedInjective(a: string, b: string)
    requires Quoted(a) == Quoted(b)
    ensures a == b
  {
    Cancel("\"", Escaped(a), Escaped(b), "\"");
    EscapedInjective(a, b);
  }

  function HexValue(c: char): Option<nat> {
    if '0' <= c <= '9' then Some(c as int - '0' as int)
    else if 'a' <= c <= 'f' then Some(c as int - 'a' as int + 10)
    else None
  }

  /** Reading one character or escape off a JSON string body, with the length it takes. */
  function ReadEscape(s: string): Option<(char, nat)>
    requires s != ""
  {
    if s[0] == '"' || s[0] as int < 32 then None
    else if s[0] != '\\' then Some((s[0], 1))
    else if |s| < 2 then None
    else if s[1] == '"' || s[1] == '\\' then Some((s[1], 2))
    else if s[1] == 'n' then Some(('\n', 2))
    else if s[1] == 'r' then Some(('\r', 2))
    else if s[1] == 't' then Some(('\t', 2))
    else if s[1] == 'b' then Some((8 as char, 2))
    else if s[1] == 'f' then Some((12 as char, 2))
    else if s[1] == 'u' && |s| >= 6 && s[2] == '0' && s[3] == '0' && HexValue(s[4]).Some? && HexValue(s[5]).Some? then
      Some(((16 * HexValue(s[4]).value + HexValue(s[5]).value) as char, 6))
    else None
  }

  /** A JSON string body, read from the left. */
  function ReadEscaped(s: string): Option<string>
    decreases |s|
  {
    if s == "" then Some("")
    else
      var first := ReadEscape(s);
      if first.None? || first.value.1 > |s| || first.value.1 == 0 then None
      else
        var rest := ReadEscaped(s[first.value.1..]);
        if rest.None? then None else Some([first.value.0] + rest.value)
  }

  lemma HexReads(d: nat)
    requires d < 16
    ensures HexValue(HexChar(d)) == Some(d)
  {
  }

  lemma EscapeReads(c: char, x: string)
    ensures ReadEscape(Escape(c) + x) == Some((c, |Escape(c)|))
  {
    if c as int < 32 {
      HexReads(c as int / 16);
      HexReads(c as int % 16);
    }
  }

  /** The escaped body of a text reads back as that text. */
  lemma {:induction false} EscapedReads(s: string)
    ensures ReadEscaped(Escaped(s)) == Some(s)
    decreases |s|
  {
    hide Escape, ReadEscape;
    if s != "" {
      EscapeReads(s[0], Escaped(s[1..]));
      EscapedReads(s[1..]);
      assert Escaped(s)[|Escape(s[0])|..] == Escaped(s[1..]);
      assert s == [s[0]] + s[1..];
    }
  }

  /** A quoted text is its escaped body between two quotation marks, and reads back as that text. */
  lemma QuotedReads(s: string)
    ensures var q := Quoted(s);
            |q| >= 2 && q[0] == q[|q| - 1] == '"' && ReadEscaped(q[1..|q| - 1]) == Some(s)
  {
    EscapedReads(s);
    assert Quoted(s)[1..|Quoted(s)| - 1] == Escaped(s);
  }
}
