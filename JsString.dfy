/**
 * String built-ins the application uses: number-to-string conversion, the global
 * `parseInt` with no radix argument, `indexOf`, `replace` with a string pattern
 * (first occurrence only), `replace` with a global regular expression that deletes
 * literal alternatives, and `trim`.
 */
module JsString {
  import opened Wrappers

  // ---------------------------------------------------------------- numbers

  predicate IsDigit(c: char)
  {
    '0' <= c <= '9'
  }

  predicate IsHexDigit(c: char)
  {
    IsDigit(c) || 'a' <= c <= 'f' || 'A' <= c <= 'F'
  }

  /** The value of a hexadecimal digit; it is only ever applied to digits (any other character gives 0). */
  function DigitValue(c: char): (v: nat)
    ensures v < 16
    ensures IsDigit(c) ==> v < 10
  {
    if IsDigit(c) then c as int - '0' as int
    else if 'a' <= c <= 'f' then c as int - 'a' as int + 10
    else if 'A' <= c <= 'F' then c as int - 'A' as int + 10
    else 0
  }

  function DigitChar(d: nat): (c: char)
    requires d < 10
    ensures IsDigit(c) && DigitValue(c) == d
  {
    ('0' as int + d) as char
  }

  /** `String(n)` for a non-negative whole number: its decimal digits, no leading zero. */
  function NatToString(n: nat): (s: string)
    ensures |s| > 0
    ensures forall i :: 0 <= i < |s| ==> IsDigit(s[i])
    ensures |s| > 1 ==> s[0] != '0'
  {
    if n < 10 then [DigitChar(n)] else NatToString(n / 10) + [DigitChar(n % 10)]
  }

  /** `String(n)` (and `n.toString()`) for a whole number. */
  function IntToString(n: int): string
  {
    if n < 0 then "-" + NatToString(-n) else NatToString(n)
  }

  /** The value of a run of digits in base `radix`, most significant first. */
  function DigitsValue(s: string, radix: nat): nat
  {
    if s == [] then 0 else DigitsValue(s[..|s| - 1], radix) * radix + DigitValue(s[|s| - 1])
  }

  /** The longest prefix of `s` made of digits valid in base `radix` (10 or 16). */
  function DigitRun(s: string, radix: nat): (r: string)
    ensures r <= s
    ensures |r| < |s| ==> !(if radix == 10 then IsDigit(s[|r|]) else IsHexDigit(s[|r|]))
  {
    if s == [] then []
    else if (if radix == 10 then IsDigit(s[0]) else IsHexDigit(s[0])) then [s[0]] + DigitRun(s[1..], radix)
    else []
  }

  /** Every character of the run is a digit of the base. */
  lemma {:induction false} DigitRunIsDigits(s: string, radix: nat)
    ensures forall i :: 0 <= i < |DigitRun(s, radix)| ==>
              IsHexDigit(DigitRun(s, radix)[i]) && (radix == 10 ==> IsDigit(DigitRun(s, radix)[i]))
  {
    if s != [] && (if radix == 10 then IsDigit(s[0]) else IsHexDigit(s[0])) {
      DigitRunIsDigits(s[1..], radix);
      var r := DigitRun(s, radix);
      forall i | 1 <= i < |r|
        ensures IsHexDigit(r[i]) && (radix == 10 ==> IsDigit(r[i]))
      {
        assert r[i] == DigitRun(s[1..], radix)[i - 1];
      }
    }
  }

  /**
   * The white space `parseInt` and `trim` skip. Only the ASCII characters and the
   * no-break space are modelled, not every Unicode space separator.
   */
  predicate IsSpace(c: char)
  {
    c == ' ' || c == '\t' || c == '\n' || c == '\r' || c == '\U{000B}' || c == '\U{000C}'
      || c == '\U{00A0}' || c == '\U{FEFF}'
  }

  function TrimStart(s: string): (r: string)
    ensures |r| <= |s| && r == s[|s| - |r|..]
    ensures r == [] || !IsSpace(r[0])
  {
    if s != [] && IsSpace(s[0]) then TrimStart(s[1..]) else s
  }

  /** What `TrimStart` drops is white space only. */
  lemma {:induction false} TrimStartDropsSpace(s: string)
    ensures forall i :: 0 <= i < |s| - |TrimStart(s)| ==> IsSpace(s[i])
  {
    if s != [] && IsSpace(s[0]) {
      TrimStartDropsSpace(s[1..]);
      forall i | 1 <= i < |s| - |TrimStart(s)|
        ensures IsSpace(s[i])
      {
        assert s[i] == s[1..][i - 1];
      }
    }
  }

  function TrimEnd(s: string): (r: string)
    ensures |r| <= |s| && r == s[..|r|]
    ensures r == [] || !IsSpace(r[|r| - 1])
  {
    if s != [] && IsSpace(s[|s| - 1]) then TrimEnd(s[..|s| - 1]) else s
  }

  /** What `TrimEnd` drops is white space only. */
  lemma {:induction false} TrimEndDropsSpace(s: string)
    ensures forall i :: |TrimEnd(s)| <= i < |s| ==> IsSpace(s[i])
  {
    if s != [] && IsSpace(s[|s| - 1]) {
      TrimEndDropsSpace(s[..|s| - 1]);
      forall i | |TrimEnd(s)| <= i < |s| - 1
        ensures IsSpace(s[i])
      {
        assert s[i] == s[..|s| - 1][i];
      }
    }
  }

  /** `s.trim()`: a contiguous piece of `s` with the surrounding white space removed. */
  function Trim(s: string): (r: string)
  {
    TrimEnd(TrimStart(s))
  }

  lemma TrimIsSlice(s: string)
    ensures exists i, j :: 0 <= i <= j <= |s| && Trim(s) == s[i..j]
  {
    var t := TrimStart(s);
    var r := TrimEnd(t);
    var i := |s| - |t|;
    assert r == s[i..i + |r|];
  }

  /**
   * The global `parseInt(s)` with no radix: leading white space and one sign are skipped,
   * a `0x`/`0X` prefix selects base 16, and the longest run of digits that follows is
   * read. `None` is JavaScript's `NaN` (no digit at all). Very long digit runs, which
   * JavaScript rounds to the nearest double, are read exactly here.
   */
  function ParseInt(s: string): Option<int>
  {
    ParseSigned(TrimStart(s))
  }

  /** `parseInt` after the leading white space: an optional sign, then the digits. */
  function ParseSigned(t: string): Option<int>
  {
    if |t| > 0 && t[0] == '-' then
      match ParseUnsigned(t[1..])
      case Some(v) => Some(-(v as int))
      case None => None
    else
      match ParseUnsigned(if |t| > 0 && t[0] == '+' then t[1..] else t)
      case Some(v) => Some(v as int)
      case None => None
  }

  /** The digits after the sign: hexadecimal after `0x`/`0X`, decimal otherwise. */
  function ParseUnsigned(u: string): Option<nat>
  {
    var hex := |u| >= 2 && u[0] == '0' && (u[1] == 'x' || u[1] == 'X');
    var radix := if hex then 16 else 10;
    var run := DigitRun(if hex then u[2..] else u, radix);
    if run == [] then None else Some(DigitsValue(run, radix))
  }

  /** JavaScript's `parseInt(x) || 0`: `NaN` becomes 0. */
  function ParseIntOrZero(s: string): int
  {
    ParseInt(s).GetOr(0)
  }

  lemma {:induction false} DigitsValueOfNat(n: nat)
    ensures DigitsValue(NatToString(n), 10) == n
  {
    if n >= 10 {
      var s := NatToString(n);
      assert s[..|s| - 1] == NatToString(n / 10);
      DigitsValueOfNat(n / 10);
    }
  }

  lemma {:induction false} DigitRunOfDigits(s: string)
    requires forall i :: 0 <= i < |s| ==> IsDigit(s[i])
    ensures DigitRun(s, 10) == s
  {
    if s != [] {
      DigitRunOfDigits(s[1..]);
    }
  }

  lemma {:induction false} ParseUnsignedDigits(d: string)
    requires |d| > 0 && forall i :: 0 <= i < |d| ==> IsDigit(d[i])
    ensures ParseUnsigned(d) == Some(DigitsValue(d, 10))
  {
    DigitRunOfDigits(d);
  }

  lemma TrimStartNoSpace(t: string)
    requires t != [] && !IsSpace(t[0])
    ensures TrimStart(t) == t
  {
  }

  /** `parseInt` of a decimal numeral without a `0x` prefix. */
  lemma {:induction false} ParseIntOfDigits(d: string)
    requires |d| > 0 && forall i :: 0 <= i < |d| ==> IsDigit(d[i])
    ensures ParseInt(d) == Some(DigitsValue(d, 10) as int)
  {
    ParseUnsignedDigits(d);
    TrimStartNoSpace(d);
  }

  /** `parseInt` of a decimal numeral after a minus sign. */
  lemma {:induction false} ParseIntOfNegativeDigits(d: string)
    requires |d| > 0 && forall i :: 0 <= i < |d| ==> IsDigit(d[i])
    ensures ParseInt("-" + d) == Some(-(DigitsValue(d, 10) as int))
  {
    ParseUnsignedDigits(d);
    var t := "-" + d;
    assert t[0] == '-' && t[1..] == d;
    assert ParseSigned(t) == Some(-(DigitsValue(d, 10) as int));
    TrimStartNoSpace(t);
  }

  /** `parseInt` reads back every whole number that `String` writes. */
  lemma ParseIntOfString(n: int)
    ensures ParseInt(IntToString(n)) == Some(n)
  {
    var m: nat := if n < 0 then -n else n;
    DigitsValueOfNat(m);
    if n < 0 {
      ParseIntOfNegativeDigits(NatToString(m));
    } else {
      ParseIntOfDigits(NatToString(m));
    }
  }

  // ---------------------------------------------------------------- searching

  /** `p` occurs in `s` starting at index `i`. */
  predicate OccursAt(s: string, p: string, i: int)
  {
    0 <= i && i + |p| <= |s| && s[i..i + |p|] == p
  }

  predicate Contains(s: string, p: string)
  {
    exists i :: 0 <= i <= |s| && OccursAt(s, p, i)
  }

  function IndexFrom(s: string, p: string, i: nat): (r: Option<nat>)
    requires i <= |s| + 1
    ensures r.Some? ==> i <= r.value && OccursAt(s, p, r.value)
    ensures r.Some? ==> forall j :: i <= j < r.value ==> !OccursAt(s, p, j)
    ensures r.None? ==> forall j :: i <= j ==> !OccursAt(s, p, j)
    decreases |s| + 1 - i
  {
    if i + |p| > |s| then None
    else if s[i..i + |p|] == p then Some(i)
    else IndexFrom(s, p, i + 1)
  }

  /** `s.indexOf(p)`: the first index where `p` occurs, or `None` for -1. */
  function IndexOf(s: string, p: string): (r: Option<nat>)
    ensures r.Some? ==> OccursAt(s, p, r.value)
    ensures r.Some? ==> forall j :: 0 <= j < r.value ==> !OccursAt(s, p, j)
    ensures r.None? <==> !Contains(s, p)
  {
    IndexFrom(s, p, 0)
  }

  /**
   * `s.replace(p, rep)` with a string pattern: only the first occurrence is replaced.
   * (The `$` patterns of a replacement string are not modelled; no replacement the
   * application passes contains `$`.)
   */
  function ReplaceFirst(s: string, p: string, rep: string): (r: string)
    ensures !Contains(s, p) ==> r == s
    ensures Contains(s, p) ==>
      (exists i :: OccursAt(s, p, i)
        && (forall j :: 0 <= j < i ==> !OccursAt(s, p, j))
        && r == s[..i] + rep + s[i + |p|..])
  {
    match IndexOf(s, p)
    case None => s
    case Some(i) => s[..i] + rep + s[i + |p|..]
  }

  // ---------------------------------------------------------------- regular-expression deletion

  /** The index of the first alternative that is a prefix of `s`, as regex alternation tries them. */
  function FirstAlternative(s: string, alts: seq<string>, k: nat): (r: Option<nat>)
    requires k <= |alts|
    ensures r.Some? ==> k <= r.value < |alts| && alts[r.value] <= s
    ensures r.Some? ==> forall j :: k <= j < r.value ==> !(alts[j] <= s)
    ensures r.None? ==> forall j :: k <= j < |alts| ==> !(alts[j] <= s)
    decreases |alts| - k
  {
    if k == |alts| then None
    else if alts[k] <= s then Some(k)
    else FirstAlternative(s, alts, k + 1)
  }

  /**
   * `s.replace(/a|b|.../g, '')` for non-empty literal alternatives: scanning left to
   * right, a match is deleted and the scan resumes after it; the text produced by a
   * deletion is not scanned again.
   */
  function DeleteAll(s: string, alts: seq<string>): string
    requires forall k :: 0 <= k < |alts| ==> |alts[k]| > 0
    decreases |s|
  {
    if s == [] then []
    else match FirstAlternative(s, alts, 0)
      case Some(k) => DeleteAll(s[|alts[k]|..], alts)
      case None => [s[0]] + DeleteAll(s[1..], alts)
  }

  const Fence: string := "```"

  /** Deleting every "```" never leaves a character that was not already a non-match. */
  lemma DeleteFencesHead(s: string)
    requires s != [] && s[0] != '`'
    ensures DeleteAll(s, [Fence]) != [] && DeleteAll(s, [Fence])[0] == s[0]
  {
    assert FirstAlternative(s, [Fence], 0) == None;
  }

  /** After a character that does not start "```", deletion keeps that character first. */
  lemma DeleteFencesKeep(s: string)
    requires s != [] && !(Fence <= s)
    ensures DeleteAll(s, [Fence]) == [s[0]] + DeleteAll(s[1..], [Fence])
  {
    assert FirstAlternative(s, [Fence], 0) == None;
  }

  /** The result of deleting fences from text that does not start with one does not start with one. */
  lemma NoFenceAtStart(s: string)
    requires !(Fence <= s)
    ensures !OccursAt(DeleteAll(s, [Fence]), Fence, 0)
  {
    var r := DeleteAll(s, [Fence]);
    assert |Fence| == 3;
    if s == [] {
      assert r == [];
    } else {
      DeleteFencesKeep(s);
      var rest := DeleteAll(s[1..], [Fence]);
      if s[0] != '`' {
        assert r[0] != '`';
      } else if |s| == 1 {
        assert rest == [];
        assert |r| == 1;
      } else if s[1] != '`' {
        DeleteFencesHead(s[1..]);
        assert r[1] == s[1];
      } else if |s| == 2 {
        assert s[1..] == "`";
        DeleteFencesKeep(s[1..]);
        assert DeleteAll(s[2..], [Fence]) == [];
        assert |r| == 2;
      } else {
        assert s[2] != '`' by { assert s[..3] != Fence; }
        assert !(Fence <= s[1..]) by { assert s[1..][1] != '`'; }
        DeleteFencesKeep(s[1..]);
        DeleteFencesHead(s[2..]);
        assert r[2] == s[2];
      }
    }
  }

  /** No "```" survives `s.replace(/```/g, '')`. */
  lemma {:induction false} NoFenceAfterDelete(s: string)
    ensures !Contains(DeleteAll(s, [Fence]), Fence)
    decreases |s|
  {
    var alts := [Fence];
    assert |Fence| == 3;
    if s == [] {
      assert DeleteAll(s, alts) == [];
    } else if Fence <= s {
      assert FirstAlternative(s, alts, 0) == Some(0);
      NoFenceAfterDelete(s[3..]);
    } else {
      DeleteFencesKeep(s);
      var r := DeleteAll(s, alts);
      var rest := DeleteAll(s[1..], alts);
      forall i | 0 < i <= |r| && OccursAt(r, Fence, i)
        ensures OccursAt(rest, Fence, i - 1)
      {
        assert rest[i - 1..i + 2] == r[i..i + 3];
      }
      NoFenceAtStart(s);
      NoFenceAfterDelete(s[1..]);
    }
  }

  lemma DeleteAllShorter(s: string, alts: seq<string>)
    requires forall k :: 0 <= k < |alts| ==> |alts[k]| > 0
    ensures |DeleteAll(s, alts)| <= |s|
    decreases |s|
  {
    if s != [] {
      match FirstAlternative(s, alts, 0)
      case Some(k) => DeleteAllShorter(s[|alts[k]|..], alts);
      case None => DeleteAllShorter(s[1..], alts);
    }
  }

  /** A piece cut out of a text without "```" has none either. */
  lemma NoFenceInSlice(s: string, i: int, j: int)
    requires 0 <= i <= j <= |s|
    requires !Contains(s, Fence)
    ensures !Contains(s[i..j], Fence)
  {
    assert |Fence| == 3;
    forall k | 0 <= k <= j - i && OccursAt(s[i..j], Fence, k)
      ensures OccursAt(s, Fence, i + k)
    {
      assert k + 3 <= j - i;
      var whole := s[i + k..i + k + 3];
      var piece := s[i..j][k..k + 3];
      forall m | 0 <= m < 3 ensures whole[m] == piece[m] {
        assert piece[m] == s[i + k + m];
      }
      assert whole == piece;
    }
  }
}
