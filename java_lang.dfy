/** The few java.lang semantics the pipeline's code relies on: 32-bit int
    arithmetic, the truncating remainder, String.trim / toLowerCase /
    equalsIgnoreCase / lastIndexOf / split(",") / contains, and Integer.parseInt. */
module JavaLang {
  import opened Wrappers

  const IntMin := -0x8000_0000
  const IntMax := 0x7fff_ffff

  /** A value of Java's `int` */
  type Int32 = x: int | -0x8000_0000 <= x <= 0x7fff_ffff

  /** Two's-complement wrap-around of an exact result to `int` */
  function Wrap32(x: int): (r: Int32)
    ensures IntMin <= x <= IntMax ==> r == x
  {
    if IntMin <= x <= IntMax then x
    else (x + 0x8000_0000) % 0x1_0000_0000 - 0x8000_0000
  }

  /** Java's `%` on ints: the remainder has the sign of the dividend */
  function JavaRem(a: int, b: int): (r: int)
    requires b > 0
    ensures a >= 0 ==> 0 <= r < b
    ensures a < 0 ==> -b < r <= 0
  {
    if a >= 0 then a % b else -((-a) % b)
  }

  /** String.trim removes every leading and trailing char <= ' ' */
  predicate IsTrimmable(c: char) {
    c <= ' '
  }

  function TrimStart(s: string): (r: string)
    ensures |r| <= |s|
    ensures r != [] ==> !IsTrimmable(r[0])
    ensures forall i :: 0 <= i < |s| - |r| ==> IsTrimmable(s[i])
  {
    if s != [] && IsTrimmable(s[0]) then TrimStart(s[1..]) else s
  }

  /** What TrimStart keeps is a suffix */
  lemma {:induction false} TrimStartSuffix(s: string)
    ensures TrimStart(s) == s[|s| - |TrimStart(s)|..]
  {
    if s != [] && IsTrimmable(s[0]) {
      TrimStartSuffix(s[1..]);
      assert s[1..][|s| - 1 - |TrimStart(s)|..] == s[|s| - |TrimStart(s)|..];
    }
  }

  function TrimEnd(s: string): (r: string)
    ensures |r| <= |s| && r == s[..|r|]
    ensures r != [] ==> !IsTrimmable(r[|r| - 1])
    ensures forall i :: |r| <= i < |s| ==> IsTrimmable(s[i])
  {
    if s != [] && IsTrimmable(s[|s| - 1]) then TrimEnd(s[..|s| - 1]) else s
  }

  /** String.trim */
  function Trim(s: string): (r: string)
    ensures r != [] ==> !IsTrimmable(r[0]) && !IsTrimmable(r[|r| - 1])
    ensures |r| <= |s|
  {
    TrimEnd(TrimStart(s))
  }

  /** The trim is the middle of the input, cut after a blank head and before a blank tail */
  lemma TrimIsMiddle(s: string)
    ensures var a := |s| - |TrimStart(s)|;
      a + |Trim(s)| <= |s| && Trim(s) == s[a..a + |Trim(s)|]
      && (forall i :: 0 <= i < a ==> IsTrimmable(s[i]))
      && (forall i :: a + |Trim(s)| <= i < |s| ==> IsTrimmable(s[i]))
  {
    TrimStartSuffix(s);
    var u := TrimStart(s);
    var a := |s| - |u|;
    assert u == s[a..];
    forall i | a + |Trim(s)| <= i < |s|
      ensures IsTrimmable(s[i])
    {
      assert s[i] == u[i - a];
    }
  }

  /** A string without blank ends is its own trim */
  lemma TrimNothing(s: string)
    requires s != [] && !IsTrimmable(s[0]) && !IsTrimmable(s[|s| - 1])
    ensures Trim(s) == s
  {
    assert TrimStart(s) == s;
  }

  /** A trimmed string is its own trim */
  lemma TrimIdempotent(s: string)
    ensures Trim(Trim(s)) == Trim(s)
  {
    var t := Trim(s);
    assert TrimStart(t) == t;
    assert TrimEnd(t) == t;
  }

  /** `s == null || s.trim().isEmpty()` in the non-null case: every char is trimmable */
  lemma TrimEmptyIffBlank(s: string)
    ensures Trim(s) == [] <==> forall i :: 0 <= i < |s| ==> IsTrimmable(s[i])
  {
    TrimStartSuffix(s);
    if Trim(s) == [] {
      var u := TrimStart(s);
      assert TrimEnd(u) == [];
      // u starts with a char that is kept, yet TrimEnd drops all of it
      assert u == [];
    }
  }

  /** String.trim only removes characters: every kept one was in the string */
  lemma TrimKeepsChars(s: string)
    ensures forall i :: 0 <= i < |Trim(s)| ==> Trim(s)[i] in s
  {
    TrimStartSuffix(s);
    var u := TrimStart(s);
    forall i | 0 <= i < |Trim(s)|
      ensures Trim(s)[i] in s
    {
      assert Trim(s)[i] == u[i] == s[|s| - |u| + i];
    }
  }

  /** Character.toLowerCase restricted to ASCII letters */
  function LowerChar(c: char): (r: char)
    ensures 'A' <= c <= 'Z' ==> r as int == c as int + 32
    ensures !('A' <= c <= 'Z') ==> r == c
  {
    if 'A' <= c <= 'Z' then (c as int + 32) as char else c
  }

  /** String.toLowerCase (ASCII letters) */
  function ToLower(s: string): (r: string)
    ensures |r| == |s| && forall i :: 0 <= i < |s| ==> r[i] == LowerChar(s[i])
  {
    if s == [] then [] else [LowerChar(s[0])] + ToLower(s[1..])
  }

  /** String.equalsIgnoreCase (ASCII letters) */
  predicate EqualsIgnoreCase(a: string, b: string) {
    ToLower(a) == ToLower(b)
  }

  /** String.lastIndexOf(c), -1 when absent */
  function LastIndexOf(s: string, c: char): (r: int)
    ensures -1 <= r < |s|
    ensures r >= 0 ==> s[r] == c
    ensures forall i :: r < i < |s| ==> s[i] != c
  {
    if s == [] then -1
    else if s[|s| - 1] == c then |s| - 1
    else LastIndexOf(s[..|s| - 1], c)
  }

  /** The pieces between the commas of `s`, empty ones included */
  function CommaPieces(s: string): (r: seq<string>)
    ensures |r| >= 1
    ensures s != [] && s[|s| - 1] != ',' ==> r[|r| - 1] != []
  {
    if s == [] then [[]]
    else
      var p := CommaPieces(s[..|s| - 1]);
      if s[|s| - 1] == ',' then p + [[]] else p[..|p| - 1] + [p[|p| - 1] + [s[|s| - 1]]]
  }

  function DropTrailingEmpty(ps: seq<string>): (r: seq<string>)
    ensures |r| <= |ps| && r == ps[..|r|]
    ensures r != [] ==> r[|r| - 1] != []
    ensures forall i :: |r| <= i < |ps| ==> ps[i] == []
  {
    if ps != [] && ps[|ps| - 1] == [] then DropTrailingEmpty(ps[..|ps| - 1]) else ps
  }

  /** String.split(","): without a comma the string itself; otherwise the
      pieces between commas with the trailing empty ones removed */
  function SplitComma(s: string): (r: seq<string>)
    ensures ',' !in s ==> r == [s]
    ensures ',' in s ==> r == DropTrailingEmpty(CommaPieces(s))
  {
    if ',' !in s then [s] else DropTrailingEmpty(CommaPieces(s))
  }

  /** Commas only separate: no piece holds one, and there is one piece more than commas */
  lemma {:induction false} CommaPiecesFacts(s: string)
    ensures forall i :: 0 <= i < |CommaPieces(s)| ==> ',' !in CommaPieces(s)[i]
    ensures |CommaPieces(s)| == 1 + CommaCount(s)
  {
    if s != [] {
      CommaPiecesFacts(s[..|s| - 1]);
    }
  }

  function CommaCount(s: string): nat {
    if s == [] then 0 else CommaCount(s[..|s| - 1]) + (if s[|s| - 1] == ',' then 1 else 0)
  }

  /** A line that does not end in a comma keeps all its pieces, the empty ones between commas included */
  lemma SplitCommaKeepsInner(s: string)
    requires s != [] && s[|s| - 1] != ','
    ensures SplitComma(s) == (if ',' in s then CommaPieces(s) else [s])
    ensures |SplitComma(s)| == 1 + CommaCount(s)
  {
    CommaPiecesFacts(s);
    var p := CommaPieces(s);
    assert p[|p| - 1] != [];
    if ',' !in s {
      CommaCountZero(s);
    }
  }

  lemma {:induction false} CommaCountZero(s: string)
    requires ',' !in s
    ensures CommaCount(s) == 0
  {
    if s != [] {
      assert s[|s| - 1] in s;
      assert forall c :: c in s[..|s| - 1] ==> c in s;
      CommaCountZero(s[..|s| - 1]);
    }
  }

  /** Whether `t` occurs as a contiguous part of `s` (String.contains) */
  predicate Contains(s: string, t: string)
    decreases |s|
  {
    t <= s || (s != [] && Contains(s[1..], t))
  }

  /** The decimal value of a run of ASCII digits */
  function DigitsValue(s: string): (v: nat)
    requires forall i :: 0 <= i < |s| ==> '0' <= s[i] <= '9'
  {
    if s == [] then 0 else DigitsValue(s[..|s| - 1]) * 10 + (s[|s| - 1] as int - '0' as int)
  }

  predicate AllDigits(s: string) {
    forall i :: 0 <= i < |s| ==> '0' <= s[i] <= '9'
  }

  /** Integer.parseInt(s): an optional sign then at least one ASCII digit, no
      surrounding space, and a value inside `int`; anything else is a
      NumberFormatException, modelled as None. */
  function ParseInt(s: string): (r: Option<Int32>)
    ensures r.Some? ==> s != []
  {
    var neg := |s| > 0 && s[0] == '-';
    var signed := |s| > 0 && (s[0] == '-' || s[0] == '+');
    var digits := if signed then s[1..] else s;
    if digits == [] || !AllDigits(digits) then None
    else
      var n: int := DigitsValue(digits);
      var v: int := if neg then -n else n;
      if IntMin <= v <= IntMax then Some(v) else None
  }

  lemma ParseIntExamples()
    ensures ParseInt("1433") == Some(1433)
    ensures ParseInt("-7") == Some(-7)
  {
    assert DigitsValue("1433") == 1433 by {
      assert "1433"[..3] == "143";
      assert "143"[..2] == "14";
      assert "14"[..1] == "1";
    }
    assert "-7"[1..] == "7" && DigitsValue("7") == 7;
  }

  /** A blank, an empty string and a lone sign are not numbers */
  lemma ParseIntRejects()
    ensures ParseInt(" 1") == None && ParseInt("") == None && ParseInt("+") == None
  {
  }

  /** One past Integer.MAX_VALUE does not parse */
  lemma ParseIntOverflow()
    ensures ParseInt("2147483648") == None
  {
    assert DigitsValue("21474") == 21474 by {
      assert "21474"[..4] == "2147";
      assert "2147"[..3] == "214";
      assert "214"[..2] == "21";
      assert "21"[..1] == "2";
    }
    assert DigitsValue("2147483648") == 2147483648 by {
      assert "2147483648"[..9] == "214748364";
      assert "214748364"[..8] == "21474836";
      assert "21474836"[..7] == "2147483";
      assert "2147483"[..6] == "214748";
      assert "214748"[..5] == "21474";
    }
  }
}
