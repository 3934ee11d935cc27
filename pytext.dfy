/**
 * The Python string built-ins the core relies on: `str.strip()`, `str.split(sep)` with a
 * one-character separator, and `int(s)` on a decimal string. Only ASCII is modelled.
 * `FormatInt` and `Join` are the inverses used to state round trips.
 */
module PyText {
  import opened Wrappers

  /** Python's `str.isspace` on ASCII: tab, LF, VT, FF, CR, the separators 0x1C-0x1F, space. */
  predicate IsSpace(c: char) {
    c == ' ' || (9 <= c as int <= 13) || (0x1C <= c as int <= 0x1F)
  }

  predicate IsDigit(c: char) {
    '0' <= c <= '9'
  }

  function DigitValue(c: char): (d: nat)
    requires IsDigit(c)
    ensures d < 10
  {
    (c as int) - ('0' as int)
  }

  function DigitChar(d: nat): (c: char)
    requires d < 10
    ensures IsDigit(c) && DigitValue(c) == d
  {
    (('0' as int) + d) as char
  }

  /** Drops leading whitespace: what is dropped is all whitespace and what is left does not start with it. */
  function TrimLeft(s: string): (r: string)
    ensures |r| <= |s| && r == s[|s| - |r|..]
    ensures forall k :: 0 <= k < |s| - |r| ==> IsSpace(s[k])
    ensures r == [] || !IsSpace(r[0])
  {
    if s != [] && IsSpace(s[0]) then TrimLeft(s[1..]) else s
  }

  /** Drops trailing whitespace: what is dropped is all whitespace and what is left does not end with it. */
  function TrimRight(s: string): (r: string)
    ensures |r| <= |s| && r == s[..|r|]
    ensures forall k :: |r| <= k < |s| ==> IsSpace(s[k])
    ensures r == [] || !IsSpace(r[|r| - 1])
  {
    if s != [] && IsSpace(s[|s| - 1]) then TrimRight(s[..|s| - 1]) else s
  }

  /** Python's `s.strip()`. */
  function Strip(s: string): (r: string)
    ensures |r| <= |s|
    ensures r == [] || (!IsSpace(r[0]) && !IsSpace(r[|r| - 1]))
  {
    TrimRight(TrimLeft(s))
  }

  lemma StripNoSpace(s: string)
    requires forall k :: 0 <= k < |s| ==> !IsSpace(s[k])
    ensures Strip(s) == s
  {
  }

  /** The value of a non-empty run of decimal digits, most significant first. */
  function DigitsValue(t: string): nat
    requires forall k :: 0 <= k < |t| ==> IsDigit(t[k])
  {
    if t == [] then 0 else DigitsValue(t[..|t| - 1]) * 10 + DigitValue(t[|t| - 1])
  }

  function ParseDigits(t: string): (r: Option<nat>)
    ensures r.Some? <==> t != [] && forall k :: 0 <= k < |t| ==> IsDigit(t[k])
  {
    if t != [] && forall k :: 0 <= k < |t| ==> IsDigit(t[k]) then Some(DigitsValue(t)) else None
  }

  /** Python's `int(s)` for base 10: optional surrounding whitespace, an optional sign, one or more digits. */
  function ParseInt(s: string): (r: Option<int>)
    ensures r.Some? <==>
      var t := Strip(s);
      if t != [] && (t[0] == '-' || t[0] == '+') then ParseDigits(t[1..]).Some? else ParseDigits(t).Some?
  {
    var t := Strip(s);
    if t != [] && t[0] == '-' then
      match ParseDigits(t[1..])
      case Some(n) => Some(-(n as int))
      case None => None
    else if t != [] && t[0] == '+' then
      match ParseDigits(t[1..])
      case Some(n) => Some(n)
      case None => None
    else
      match ParseDigits(t)
      case Some(n) => Some(n)
      case None => None
  }

  /** The decimal digits of `n`, without leading zeros. */
  function NatDigits(n: nat): (t: string)
    ensures t != [] && forall k :: 0 <= k < |t| ==> IsDigit(t[k])
  {
    if n < 10 then [DigitChar(n)] else NatDigits(n / 10) + [DigitChar(n % 10)]
  }

  /** Python's `str(n)` for an integer. */
  function FormatInt(n: int): string {
    if n < 0 then "-" + NatDigits(-n) else NatDigits(n)
  }

  lemma {:induction false} DigitsRoundTrip(n: nat)
    ensures DigitsValue(NatDigits(n)) == n
  {
    var t := NatDigits(n);
    if n >= 10 {
      DigitsRoundTrip(n / 10);
      assert t[..|t| - 1] == NatDigits(n / 10);
    }
  }

  /** `int(str(n)) == n`. */
  lemma ParseFormat(n: int)
    ensures ParseInt(FormatInt(n)) == Some(n)
  {
    var f := FormatInt(n);
    if n < 0 {
      var t := NatDigits(-n);
      assert f == ['-'] + t;
      assert forall k :: 0 <= k < |f| ==> !IsSpace(f[k]) by {
        forall k | 0 <= k < |f| ensures !IsSpace(f[k]) {
          if k > 0 { assert f[k] == t[k - 1]; }
        }
      }
      StripNoSpace(f);
      assert f[1..] == t;
      DigitsRoundTrip(-n);
      assert ParseDigits(t) == Some(-n);
    } else {
      var t := NatDigits(n);
      StripNoSpace(f);
      assert !IsDigit('-') && !IsDigit('+');
      assert f[0] != '-' && f[0] != '+';
      DigitsRoundTrip(n);
      assert ParseDigits(t) == Some(n);
    }
  }

  /** Python's `s.split(sep)`: one piece per separator plus one, none of them holding `sep`. */
  function Split(s: string, sep: char): (r: seq<string>)
    ensures r != []
    ensures forall i :: 0 <= i < |r| ==> sep !in r[i]
  {
    if s == [] then [""]
    else
      var rest := Split(s[1..], sep);
      if s[0] == sep then [""] + rest else [[s[0]] + rest[0]] + rest[1..]
  }

  /** A split has one piece more than there are separators. */
  lemma {:induction false} SplitCount(s: string, sep: char)
    ensures |Split(s, sep)| == multiset(s)[sep] + 1
  {
    if s != [] {
      SplitCount(s[1..], sep);
      assert s == [s[0]] + s[1..];
      assert multiset(s) == multiset{s[0]} + multiset(s[1..]);
    }
  }

  /** Python's `sep.join(ts)`. */
  function Join(ts: seq<string>, sep: char): string
    requires ts != []
  {
    if |ts| == 1 then ts[0] else ts[0] + [sep] + Join(ts[1..], sep)
  }

  /** Joining the pieces of a split gives back the string. */
  lemma {:induction false} JoinSplit(s: string, sep: char)
    ensures Join(Split(s, sep), sep) == s
  {
    if s != [] {
      JoinSplit(s[1..], sep);
      var rest := Split(s[1..], sep);
      if s[0] != sep {
        if |rest| == 1 {
          assert Join(Split(s, sep), sep) == [s[0]] + rest[0];
        } else {
          assert Join(Split(s, sep), sep) == [s[0]] + rest[0] + [sep] + Join(rest[1..], sep);
        }
      }
    }
  }

  /** Splitting a join of separator-free pieces gives back the pieces. */
  lemma {:induction false} SplitJoin(ts: seq<string>, sep: char)
    requires ts != []
    requires forall i :: 0 <= i < |ts| ==> sep !in ts[i]
    ensures Split(Join(ts, sep), sep) == ts
  {
    if |ts| == 1 {
      SplitNoSep(ts[0], sep);
    } else {
      var tail := Join(ts[1..], sep);
      assert Join(ts, sep) == ts[0] + [sep] + tail;
      SplitJoin(ts[1..], sep);
      SplitAfterPiece(ts[0], tail, sep);
      assert [ts[0]] + ts[1..] == ts;
    }
  }

  lemma {:induction false} SplitNoSep(t: string, sep: char)
    requires sep !in t
    ensures Split(t, sep) == [t]
  {
    if t != [] {
      SplitNoSep(t[1..], sep);
      assert [t[0]] + t[1..] == t;
    }
  }

  /** A separator-free piece followed by a separator splits off as exactly that piece. */
  lemma {:induction false} SplitAfterPiece(t: string, rest: string, sep: char)
    requires sep !in t
    ensures Split(t + [sep] + rest, sep) == [t] + Split(rest, sep)
  {
    if t == [] {
      assert t + [sep] + rest == [sep] + rest;
      assert ([sep] + rest)[1..] == rest;
    } else {
      SplitAfterPiece(t[1..], rest, sep);
      assert (t + [sep] + rest)[1..] == t[1..] + [sep] + rest;
      assert [t[0]] + t[1..] == t;
    }
  }
}
