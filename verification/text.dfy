/**
 * The two pieces of JavaScript string handling the server and the client rely on:
 * `String.prototype.split` with a one-character separator, and the global `parseInt`
 * called without a radix (how the routes read numeric path and query parameters).
 */
module Text {
  import opened Wrappers

  /** `s.split(sep)` for a one-character separator: the pieces between separators, empty ones included. */
  function Split(s: string, sep: char): (parts: seq<string>)
    ensures |parts| >= 1
    ensures forall i :: 0 <= i < |parts| ==> sep !in parts[i]
    decreases |s|
  {
    if |s| == 0 then [""]
    else
      var rest := Split(s[1..], sep);
      if s[0] == sep then [""] + rest
      else [[s[0]] + rest[0]] + rest[1..]
  }

  /** `parts.join(sep)`, the inverse of `Split`. */
  function Join(parts: seq<string>, sep: char): string
    requires |parts| >= 1
    decreases |parts|
  {
    if |parts| == 1 then parts[0] else parts[0] + [sep] + Join(parts[1..], sep)
  }

  /** Number of occurrences of `c` in `s`. */
  function Count(s: string, c: char): nat
    decreases |s|
  {
    if |s| == 0 then 0 else (if s[0] == c then 1 else 0) + Count(s[1..], c)
  }

  /** Joining the pieces of a split gives back the original string. */
  lemma {:induction false} JoinSplit(s: string, sep: char)
    ensures Join(Split(s, sep), sep) == s
    decreases |s|
  {
    if |s| > 0 {
      var rest := Split(s[1..], sep);
      JoinSplit(s[1..], sep);
      if s[0] == sep {
        assert Split(s, sep) == [""] + rest;
        assert ([""] + rest)[1..] == rest;
      } else {
        var parts := [[s[0]] + rest[0]] + rest[1..];
        assert Split(s, sep) == parts;
        if |rest| == 1 {
          assert Join(rest, sep) == rest[0];
        } else {
          assert parts[1..] == rest[1..];
          assert Join(rest, sep) == rest[0] + [sep] + Join(rest[1..], sep);
        }
      }
    }
  }

  /** Splitting a join of separator-free pieces gives back the pieces. */
  lemma {:induction false} SplitJoin(parts: seq<string>, sep: char)
    requires |parts| >= 1
    requires forall i :: 0 <= i < |parts| ==> sep !in parts[i]
    ensures Split(Join(parts, sep), sep) == parts
    decreases |parts|, |parts[0]|
  {
    var s := Join(parts, sep);
    if |parts[0]| > 0 {
      var p := parts[0];
      var tail := [p[1..]] + parts[1..];
      TailSeparatorFree(parts, sep);
      SplitJoin(tail, sep);
      JoinFirstChar(parts, sep);
      assert p[0] in parts[0];
      SplitNonSeparatorHead(p[0], Join(tail, sep), sep);
      assert tail[0] == p[1..] && tail[1..] == parts[1..];
      assert [p[0]] + p[1..] == p;
    } else if |parts| > 1 {
      SplitJoin(parts[1..], sep);
      assert s == [sep] + Join(parts[1..], sep);
      assert s[1..] == Join(parts[1..], sep);
      assert [""] + parts[1..] == parts;
    }
  }

  /** A leading non-separator character joins the first piece of the rest. */
  lemma SplitNonSeparatorHead(c: char, r: string, sep: char)
    requires c != sep
    ensures Split([c] + r, sep) == [[c] + Split(r, sep)[0]] + Split(r, sep)[1..]
  {
    assert ([c] + r)[1..] == r;
  }

  /** Moving the first character out of the first piece keeps every piece separator-free. */
  lemma TailSeparatorFree(parts: seq<string>, sep: char)
    requires |parts| >= 1 && |parts[0]| > 0
    requires forall i :: 0 <= i < |parts| ==> sep !in parts[i]
    ensures var tail := [parts[0][1..]] + parts[1..];
      forall i :: 0 <= i < |tail| ==> sep !in tail[i]
  {
    var p := parts[0];
    var tail := [p[1..]] + parts[1..];
    forall i | 0 <= i < |tail|
      ensures sep !in tail[i]
    {
      if i == 0 {
        assert forall j :: 0 <= j < |p[1..]| ==> p[1..][j] == p[j + 1];
      } else {
        assert tail[i] == parts[i];
      }
    }
  }

  /** A join starts with the first character of its first piece, followed by the join of the rest. */
  lemma JoinFirstChar(parts: seq<string>, sep: char)
    requires |parts| >= 1 && |parts[0]| > 0
    ensures var tail := [parts[0][1..]] + parts[1..];
      Join(parts, sep) == [parts[0][0]] + Join(tail, sep)
  {
    var p := parts[0];
    var tail := [p[1..]] + parts[1..];
    assert p == [p[0]] + p[1..];
    if |parts| > 1 {
      assert tail[1..] == parts[1..];
    }
  }

  /** `s.split(sep)` has exactly one more piece than `s` has separators. */
  lemma {:induction false} SplitLength(s: string, sep: char)
    ensures |Split(s, sep)| == Count(s, sep) + 1
    decreases |s|
  {
    if |s| > 0 {
      SplitLength(s[1..], sep);
    }
  }

  /**
   * The first piece of a split is the text before the first separator:
   * a prefix of `s` followed either by the end of `s` or by `sep`.
   */
  lemma SplitHead(s: string, sep: char)
    ensures Split(s, sep)[0] <= s
    ensures |Split(s, sep)[0]| == |s| || s[|Split(s, sep)[0]|] == sep
  {
    var parts := Split(s, sep);
    JoinSplit(s, sep);
    if |parts| > 1 {
      assert s == parts[0] + ([sep] + Join(parts[1..], sep));
    }
  }

  // ---------------------------------------------------------------------------------------------
  // parseInt

  /**
   * The white space `parseInt` skips before the number: tab, vertical tab, form feed, the byte
   * order mark, every space separator (category Zs) and the four line terminators.
   */
  predicate IsSpace(c: char) {
    || c == '\t' || c == '\U{000B}' || c == '\U{000C}' || c == '\U{FEFF}'
    || c == ' ' || c == '\U{00A0}' || c == '\U{1680}' || '\U{2000}' <= c <= '\U{200A}'
    || c == '\U{202F}' || c == '\U{205F}' || c == '\U{3000}'
    || c == '\n' || c == '\r' || c == '\U{2028}' || c == '\U{2029}'
  }

  /** The value of `c` as a digit in base `radix` (10 or 16), if it is one. */
  function DigitValue(c: char, radix: nat): (d: Option<nat>)
    ensures d.Some? ==> d.value < radix
  {
    if '0' <= c <= '9' && (c as int) - ('0' as int) < radix then Some((c as int) - ('0' as int))
    else if radix == 16 && 'a' <= c <= 'f' then Some((c as int) - ('a' as int) + 10)
    else if radix == 16 && 'A' <= c <= 'F' then Some((c as int) - ('A' as int) + 10)
    else None
  }

  function TrimStart(s: string): (t: string)
    ensures |t| <= |s| && t == s[|s| - |t|..]
    decreases |s|
  {
    if |s| > 0 && IsSpace(s[0]) then TrimStart(s[1..]) else s
  }

  /** Length of the longest prefix of `s` made of base-`radix` digits. */
  function DigitRun(s: string, radix: nat): (n: nat)
    ensures n <= |s|
    ensures forall i :: 0 <= i < n ==> DigitValue(s[i], radix).Some?
    ensures n == |s| || DigitValue(s[n], radix).None?
    decreases |s|
  {
    if |s| > 0 && DigitValue(s[0], radix).Some? then 1 + DigitRun(s[1..], radix) else 0
  }

  /** Every character of `ds` is a base-`radix` digit. */
  predicate AllDigits(ds: string, radix: nat) {
    forall i :: 0 <= i < |ds| ==> DigitValue(ds[i], radix).Some?
  }

  /** The number a string of base-`radix` digits denotes, most significant digit first. */
  function DigitsValue(ds: string, radix: nat): nat
    requires AllDigits(ds, radix)
    decreases |ds|
  {
    if |ds| == 0 then 0
    else
      var d: nat := DigitValue(ds[|ds| - 1], radix).value;
      var high: nat := DigitsValue(ds[..|ds| - 1], radix);
      high * radix + d
  }

  /**
   * The unsigned part of `parseInt`: base 16 after a `0x`/`0X` prefix and base 10 otherwise,
   * reading digits up to the first non-digit; `None` when there is no digit at all.
   */
  function ParseMagnitude(u: string): Option<nat> {
    var hex := |u| >= 2 && u[0] == '0' && (u[1] == 'x' || u[1] == 'X');
    var radix := if hex then 16 else 10;
    var v := if hex then u[2..] else u;
    var n := DigitRun(v, radix);
    if n == 0 then None else Some(DigitsValue(v[..n], radix))
  }

  /**
   * `parseInt(s)` with no radix: skip leading white space, then read a signed number.
   * `None` stands for `NaN`, which `isNaN` detects.
   */
  function ParseInt(s: string): (r: Option<int>)
    ensures r.Some? ==> exists i :: 0 <= i < |s| && '0' <= s[i] <= '9'
  {
    var t := TrimStart(s);
    var r := ParseSigned(t);
    assert r.Some? ==> exists i :: 0 <= i < |t| && s[|s| - |t| + i] == t[i] && '0' <= t[i] <= '9';
    r
  }

  /** An optional sign, then the magnitude. */
  function ParseSigned(t: string): (r: Option<int>)
    ensures r.Some? ==> exists i :: 0 <= i < |t| && '0' <= t[i] <= '9'
  {
    var negative := |t| > 0 && t[0] == '-';
    var u := if |t| > 0 && (t[0] == '-' || t[0] == '+') then t[1..] else t;
    MagnitudeStartsWithDigit(u);
    assert ParseMagnitude(u).Some? ==> t[|t| - |u|] == u[0];
    match ParseMagnitude(u)
    case None => None
    case Some(m) => Some(if negative then -(m as int) else m)
  }

  /** Whatever the base, a readable magnitude starts with a decimal digit (`0` before an `x`). */
  lemma MagnitudeStartsWithDigit(u: string)
    ensures ParseMagnitude(u).Some? ==> |u| > 0 && '0' <= u[0] <= '9'
  {
  }

  /** Leading white space makes no difference to `parseInt`. */
  lemma ParseIntSkipsSpace(s: string)
    requires |s| > 0 && IsSpace(s[0])
    ensures ParseInt(s) == ParseInt(s[1..])
  {
  }

  /** Decimal rendering of a natural number, as `String(n)` writes it. */
  function NatToString(n: nat): (s: string)
    ensures |s| >= 1
    ensures forall i :: 0 <= i < |s| ==> '0' <= s[i] <= '9'
    ensures n >= 1 ==> s[0] != '0'
    ensures n == 0 ==> s == "0"
  {
    if n < 10 then [('0' as int + n) as char]
    else NatToString(n / 10) + [('0' as int + n % 10) as char]
  }

  lemma {:induction false} DigitsValueOfNatToString(n: nat)
    ensures AllDigits(NatToString(n), 10)
    ensures DigitsValue(NatToString(n), 10) == n
  {
    var s := NatToString(n);
    assert forall i :: 0 <= i < |s| ==> DigitValue(s[i], 10).Some?;
    if n >= 10 {
      DigitsValueOfNatToString(n / 10);
      assert s[..|s| - 1] == NatToString(n / 10);
    }
  }

  /** The magnitude reader reads back a decimal rendering followed by non-digit text. */
  lemma ParseMagnitudeOfRendering(n: nat, rest: string)
    requires |rest| == 0 || !('0' <= rest[0] <= '9')
    requires n == 0 && |rest| > 0 ==> rest[0] != 'x' && rest[0] != 'X'
    ensures ParseMagnitude(NatToString(n) + rest) == Some(n)
  {
    var ds := NatToString(n);
    DigitsValueOfNatToString(n);
    var s := ds + rest;
    if |rest| > 0 {
      assert DigitValue(rest[0], 10).None?;
    }
    if n == 0 && |rest| > 0 {
      assert s[1] == rest[0];
    }
    DigitRunOfPrefix(ds, rest);
    assert s[..|ds|] == ds;
  }

  /** Text that starts with a digit is read by the magnitude reader alone, with or without a minus sign. */
  lemma ParseIntOfMagnitude(s: string, m: nat)
    requires |s| > 0 && '0' <= s[0] <= '9'
    requires ParseMagnitude(s) == Some(m)
    ensures ParseInt(s) == Some(m)
    ensures ParseInt("-" + s) == Some(-(m as int))
  {
    ParseIntUnsigned(s, m);
    ParseIntNegative(s, m);
  }

  /** Without a sign, `parseInt` of text starting with a digit is its magnitude. */
  lemma ParseIntUnsigned(s: string, m: nat)
    requires |s| > 0 && '0' <= s[0] <= '9'
    requires ParseMagnitude(s) == Some(m)
    ensures ParseInt(s) == Some(m)
  {
    TrimStartAtNonSpace(s);
    assert ParseSigned(s) == Some(m);
  }

  /** With a minus sign in front, `parseInt` negates the magnitude. */
  lemma ParseIntNegative(s: string, m: nat)
    requires |s| > 0 && '0' <= s[0] <= '9'
    requires ParseMagnitude(s) == Some(m)
    ensures ParseInt("-" + s) == Some(-(m as int))
  {
    var t := "-" + s;
    TrimStartAtNonSpace(t);
    assert t[1..] == s;
    assert ParseSigned(t) == Some(-(m as int));
  }

  /** White-space trimming leaves text that starts with a non-space character alone. */
  lemma TrimStartAtNonSpace(s: string)
    requires |s| > 0 && !IsSpace(s[0])
    ensures TrimStart(s) == s
  {
  }

  /**
   * `parseInt` reads back a decimal rendering, with or without a minus sign, even when other
   * text follows it, as long as that text does not begin with a digit and does not turn a
   * leading `0` into a `0x` prefix.
   */
  lemma ParseIntOfRendering(n: nat, rest: string)
    requires |rest| == 0 || !('0' <= rest[0] <= '9')
    requires n == 0 && |rest| > 0 ==> rest[0] != 'x' && rest[0] != 'X'
    ensures ParseInt(NatToString(n) + rest) == Some(n)
    ensures ParseInt("-" + (NatToString(n) + rest)) == Some(-(n as int))
  {
    var ds := NatToString(n);
    var s := ds + rest;
    ParseMagnitudeOfRendering(n, rest);
    assert s[0] == ds[0];
    ParseIntOfMagnitude(s, n);
  }

  lemma {:induction false} DigitRunOfPrefix(ds: string, rest: string)
    requires AllDigits(ds, 10)
    requires |rest| == 0 || DigitValue(rest[0], 10).None?
    ensures DigitRun(ds + rest, 10) == |ds|
    decreases |ds|
  {
    if |ds| > 0 {
      assert (ds + rest)[1..] == ds[1..] + rest;
      DigitRunOfPrefix(ds[1..], rest);
    } else {
      assert ds + rest == rest;
    }
  }

  /** Examples of the lenient parsing the routes inherit: trailing text is ignored. */
  lemma ParseIntTrailingText()
    ensures ParseInt("12abc") == Some(12)
  {
    assert NatToString(1) == "1";
    assert NatToString(12) == NatToString(1) + "2";
    assert NatToString(12) + "abc" == "12abc";
    ParseIntOfRendering(12, "abc");
  }

  /** A `0x` prefix switches `parseInt` to base 16. */
  lemma ParseIntHexPrefix()
    ensures ParseInt("0x10") == Some(16)
  {
    HexMagnitude();
    ParseIntUnsigned("0x10", 16);
  }

  /** The magnitude reader reads "0x10" in base 16. */
  lemma HexMagnitude()
    ensures ParseMagnitude("0x10") == Some(16)
  {
    assert "0x10"[2..] == "10";
    HexDigits();
    assert "10"[..2] == "10";
  }

  /** "10" is a run of two hexadecimal digits worth sixteen. */
  lemma HexDigits()
    ensures DigitRun("10", 16) == 2
    ensures AllDigits("10", 16) && DigitsValue("10", 16) == 16
  {
    assert DigitValue('1', 16) == Some(1) && DigitValue('0', 16) == Some(0);
    assert "10"[1..] == "0" && "0"[1..] == "";
    assert "10"[..1] == "1" && "1"[..0] == "";
  }

  /** Text that does not begin with a digit is `NaN`. */
  lemma ParseIntNoDigits()
    ensures ParseInt("abc") == None
    ensures ParseInt("") == None
  {
    assert !IsSpace("abc"[0]);
    assert TrimStart("abc") == "abc";
    assert DigitValue("abc"[0], 10).None?;
    assert ParseMagnitude("abc").None?;
    assert TrimStart("") == "";
    assert ParseMagnitude("").None?;
  }
}
