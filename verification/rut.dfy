/** Chilean RUT helpers (bono-pad/src/utils/rut.js): keeping the significant characters,
    printing a RUT as "12.345.678-5", and checking its modulo-11 check character. */
module Rut {
  import opened Options
  import opened Text

  // ---------------------------------------------------------------------------------------
  // cleanRut
  // ---------------------------------------------------------------------------------------

  predicate IsDigit(c: char) {
    '0' <= c <= '9'
  }

  /** The characters a cleaned RUT is made of: digits and an upper-case K. */
  predicate IsRutChar(c: char) {
    IsDigit(c) || c == 'K'
  }

  predicate IsClean(s: string) {
    forall i :: 0 <= i < |s| ==> IsRutChar(s[i])
  }

  /** What one input character contributes: a digit stays, k and K become K, anything
      else is dropped. */
  function Keep(c: char): string {
    if IsDigit(c) then [c] else if c == 'k' || c == 'K' then "K" else ""
  }

  /** Drops every character but digits, k and K, then upper-cases. */
  function Clean(s: string): (r: string)
    ensures IsClean(r)
    ensures |r| <= |s|
  {
    if s == [] then "" else Clean(s[..|s| - 1]) + Keep(s[|s| - 1])
  }

  /** `cleanRut(value)`: null and undefined read as the empty string. */
  function CleanRut(value: Option<string>): (r: string)
    ensures value.None? ==> r == ""
    ensures IsClean(r)
  {
    Clean(if value.Some? then value.value else "")
  }

  lemma {:induction false} CleanAppend(a: string, b: string)
    ensures Clean(a + b) == Clean(a) + Clean(b)
    decreases |b|
  {
    if b != [] {
      assert (a + b)[..|a + b| - 1] == a + b[..|b| - 1];
      CleanAppend(a, b[..|b| - 1]);
    } else {
      assert a + b == a;
    }
  }

  /** A cleaned string comes through cleaning unchanged. */
  lemma {:induction false} CleanKeepsClean(s: string)
    requires IsClean(s)
    ensures Clean(s) == s
  {
    if s != [] {
      var init, last := s[..|s| - 1], s[|s| - 1];
      assert IsClean(init) by {
        assert forall k :: 0 <= k < |init| ==> init[k] == s[k];
      }
      CleanKeepsClean(init);
      assert Keep(last) == [last] by {
        assert IsRutChar(s[|s| - 1]);
      }
      assert s == init + [last];
    }
  }

  /** The separators formatting inserts are dropped by cleaning. */
  lemma CleanDropsSeparators(a: string, b: string, sep: char)
    requires sep == '.' || sep == '-'
    ensures Clean(a + [sep] + b) == Clean(a) + Clean(b)
  {
    assert Clean([sep]) == "" by {
      assert [sep][..0] == [];
      assert Keep(sep) == "";
    }
    CleanAppend(a + [sep], b);
    CleanAppend(a, [sep]);
  }

  lemma CleanIdempotent(s: string)
    ensures Clean(Clean(s)) == Clean(s)
  {
    CleanKeepsClean(Clean(s));
  }

  /** Letter case does not matter to cleaning. */
  lemma CleanIgnoresCase(s: string)
    ensures Clean(s + "k") == Clean(s + "K")
  {
    CleanAppend(s, "k");
    CleanAppend(s, "K");
    assert "k"[..0] == [] && "K"[..0] == [];
  }

  // ---------------------------------------------------------------------------------------
  // formatRut
  // ---------------------------------------------------------------------------------------

  function Reverse(s: string): (r: string)
    ensures |r| == |s|
    ensures forall i :: 0 <= i < |s| ==> r[i] == s[|s| - 1 - i]
  {
    if s == [] then [] else Reverse(s[1..]) + [s[0]]
  }

  lemma ReverseAppend(a: string, b: string)
    ensures Reverse(a + b) == Reverse(b) + Reverse(a)
  {
    var l, r := Reverse(a + b), Reverse(b) + Reverse(a);
    assert |l| == |r|;
    forall i | 0 <= i < |l|
      ensures l[i] == r[i]
    {
      if i < |b| {
        assert l[i] == (a + b)[|a + b| - 1 - i] == b[|b| - 1 - i];
      } else {
        assert l[i] == (a + b)[|a + b| - 1 - i] == a[|a| - 1 - (i - |b|)];
      }
    }
  }

  lemma ReverseReverse(s: string)
    ensures Reverse(Reverse(s)) == s
  {
  }

  /** The body printed with its digits in groups of three from the right, the groups
      separated by dots. */
  function Grouped(b: string): (g: string)
    decreases |b|
  {
    if |b| <= 3 then b else Grouped(b[..|b| - 3]) + "." + b[|b| - 3..]
  }

  /** What `formatRut` gives for an already cleaned RUT v: "" for "", v itself for a
      single character, and otherwise the grouped body, a dash and the check character. */
  function Formatted(v: string): string {
    if v == "" then ""
    else if |v| == 1 then v
    else Grouped(v[..|v| - 1]) + "-" + [v[|v| - 1]]
  }

  /** The string the formatting loop has built after its first i steps over the reversed
      body rev: each character, with a dot after every third one except the last. */
  function DotsAfterThrees(rev: string, i: nat): string
    requires i <= |rev|
  {
    if i == 0 then ""
    else
      DotsAfterThrees(rev, i - 1) + [rev[i - 1]]
      + (if i % 3 == 0 && i != |rev| then "." else "")
  }

  /** `formatRut(value)`: the body is reversed, dotted by `InsertDots`, and reversed back. */
  method FormatRut(value: Option<string>) returns (r: string)
    ensures r == Formatted(CleanRut(value))
  {
    var v := CleanRut(value);
    if v == "" {
      return "";
    }
    var body := v[..|v| - 1];
    var dv := v[|v| - 1];
    var out := InsertDots(Reverse(body));
    out := Reverse(out);
    GroupingLoopIsGrouped(body);
    if body != "" {
      r := out + "-" + [dv];
    } else {
      r := v;
    }
  }

  /** The loop of `formatRut`: walks the reversed body, appending each character and a dot
      after every third one that is not the last. */
  method InsertDots(rev: string) returns (out: string)
    ensures out == DotsAfterThrees(rev, |rev|)
  {
    out := "";
    for i := 0 to |rev|
      invariant out == DotsAfterThrees(rev, i)
    {
      out := out + [rev[i]];
      if (i + 1) % 3 == 0 && i + 1 != |rev| {
        out := out + ".";
      }
    }
  }

  /** With at most three characters the loop inserts no dot. */
  lemma {:induction false} NoDotsInShortRun(rev: string, i: nat)
    requires i <= |rev| <= 3
    ensures DotsAfterThrees(rev, i) == rev[..i]
  {
    if i > 0 {
      NoDotsInShortRun(rev, i - 1);
      assert rev[..i] == rev[..i - 1] + [rev[i - 1]];
    }
  }

  /** Past the first three characters, the loop's output is those three, a dot, and what
      the loop builds on the rest. */
  lemma {:induction false} FirstGroupSplits(rev: string, i: nat)
    requires 3 < |rev| && 3 <= i <= |rev|
    ensures DotsAfterThrees(rev, i) == rev[..3] + "." + DotsAfterThrees(rev[3..], i - 3)
  {
    if i == 3 {
      FirstGroup(rev);
    } else {
      FirstGroupSplits(rev, i - 1);
      var head, tail := rev[..3] + ".", rev[3..];
      var dot := if i % 3 == 0 && i != |rev| then "." else "";
      assert DotsAfterThrees(rev, i) == DotsAfterThrees(rev, i - 1) + [rev[i - 1]] + dot;
      assert DotsAfterThrees(tail, i - 3) == DotsAfterThrees(tail, i - 4) + [rev[i - 1]] + dot by {
        assert tail[i - 4] == rev[i - 1];
      }
      assert head + DotsAfterThrees(tail, i - 4) + [rev[i - 1]] + dot
          == head + (DotsAfterThrees(tail, i - 4) + [rev[i - 1]] + dot);
    }
  }

  /** The loop's first three steps on a longer run: three characters and a dot. */
  lemma FirstGroup(rev: string)
    requires 3 < |rev|
    ensures DotsAfterThrees(rev, 3) == rev[..3] + "." + DotsAfterThrees(rev[3..], 0)
  {
    assert DotsAfterThrees(rev, 1) == [rev[0]];
    assert DotsAfterThrees(rev, 2) == [rev[0], rev[1]];
    assert rev[..3] == [rev[0], rev[1], rev[2]];
  }

  /** Reversing what the loop builds on the reversed body gives the grouped body. */
  lemma {:induction false} GroupingLoopIsGrouped(b: string)
    ensures Reverse(DotsAfterThrees(Reverse(b), |b|)) == Grouped(b)
    decreases |b|
  {
    var rev := Reverse(b);
    if |b| <= 3 {
      NoDotsInShortRun(rev, |b|);
      assert rev[..|b|] == rev;
      ReverseReverse(b);
    } else {
      var b1, b2 := b[..|b| - 3], b[|b| - 3..];
      ReverseSplit(b);
      FirstGroupSplits(rev, |b|);
      GroupingLoopIsGrouped(b1);
      ReverseGroup(Reverse(b2), DotsAfterThrees(Reverse(b1), |b1|), b2);
    }
  }

  /** The reversed body starts with its last three characters, reversed. */
  lemma ReverseSplit(b: string)
    requires |b| > 3
    ensures Reverse(b)[..3] == Reverse(b[|b| - 3..])
    ensures Reverse(b)[3..] == Reverse(b[..|b| - 3])
  {
    var b1, b2 := b[..|b| - 3], b[|b| - 3..];
    assert b == b1 + b2;
    ReverseAppend(b1, b2);
  }

  /** Reversing a group, a dot and the rest puts the rest first. */
  lemma ReverseGroup(r2: string, inner: string, b2: string)
    requires Reverse(b2) == r2
    ensures Reverse(r2 + "." + inner) == Reverse(inner) + "." + b2
  {
    ReverseAppend(r2 + ".", inner);
    ReverseAppend(r2, ".");
    ReverseReverse(b2);
    assert Reverse(".") == ".";
  }

  /** Grouping only inserts dots: cleaning the grouped body gives the body back. */
  lemma {:induction false} GroupedCleansToBody(b: string)
    requires IsClean(b)
    ensures Clean(Grouped(b)) == b
    decreases |b|
  {
    if |b| <= 3 {
      CleanKeepsClean(b);
    } else {
      var b1, b2 := b[..|b| - 3], b[|b| - 3..];
      assert IsClean(b1) && IsClean(b2) by {
        assert forall k :: 0 <= k < |b1| ==> b1[k] == b[k];
        assert forall k :: 0 <= k < |b2| ==> b2[k] == b[|b| - 3 + k];
      }
      calc {
        Clean(Grouped(b));
      == { assert Grouped(b) == Grouped(b1) + ['.'] + b2; }
        Clean(Grouped(b1) + ['.'] + b2);
      == { CleanDropsSeparators(Grouped(b1), b2, '.'); }
        Clean(Grouped(b1)) + Clean(b2);
      == { GroupedCleansToBody(b1); CleanKeepsClean(b2); }
        b1 + b2;
      == { assert b == b1 + b2; }
        b;
      }
    }
  }

  /** The layout of a grouped body: counting from the right, every fourth character is a
      dot and no other is, and it does not start with a dot. */
  lemma {:induction false} GroupedLayout(b: string)
    requires b != [] && '.' !in b
    ensures var g := Grouped(b);
      && |g| % 4 != 0
      && forall i :: 0 <= i < |g| ==> (g[i] == '.' <==> (|g| - 1 - i) % 4 == 3)
    decreases |b|
  {
    if |b| > 3 {
      var b1, b2 := b[..|b| - 3], b[|b| - 3..];
      assert b == b1 + b2;
      GroupedLayout(b1);
      var g1 := Grouped(b1);
      assert Grouped(b) == g1 + "." + b2;
      forall i | 0 <= i < |g1| + 4
        ensures (g1 + "." + b2)[i] == '.' <==> (|g1| + 3 - i) % 4 == 3
      {
        LayoutAt(g1, b2, i);
      }
    }
  }

  /** One more group: a dot and three characters that are not dots, after a grouped prefix. */
  lemma LayoutAt(g1: string, b2: string, i: nat)
    requires |b2| == 3 && '.' !in b2
    requires forall j :: 0 <= j < |g1| ==> (g1[j] == '.' <==> (|g1| - 1 - j) % 4 == 3)
    requires i < |g1| + 4
    ensures (g1 + "." + b2)[i] == '.' <==> (|g1| + 3 - i) % 4 == 3
  {
    var g := g1 + "." + b2;
    if i < |g1| {
      assert g[i] == g1[i];
      assert |g1| + 3 - i == (|g1| - 1 - i) + 4;
    } else if i > |g1| {
      assert g[i] == b2[i - |g1| - 1];
    }
  }

  /** Formatting and cleaning undo each other: formatting only inserts dots and a dash. */
  lemma FormatRoundTrip(v: string)
    requires IsClean(v)
    ensures Clean(Formatted(v)) == v
  {
    if |v| == 1 {
      CleanKeepsClean(v);
    } else if |v| > 1 {
      var body, dv := v[..|v| - 1], [v[|v| - 1]];
      assert IsClean(body) && IsClean(dv) by {
        assert forall k :: 0 <= k < |body| ==> body[k] == v[k];
      }
      calc {
        Clean(Formatted(v));
      == { assert Formatted(v) == Grouped(body) + ['-'] + dv; }
        Clean(Grouped(body) + ['-'] + dv);
      == { CleanDropsSeparators(Grouped(body), dv, '-'); }
        Clean(Grouped(body)) + Clean(dv);
      == { GroupedCleansToBody(body); CleanKeepsClean(dv); }
        body + dv;
      == { assert v == body + dv; }
        v;
      }
    }
  }

  /** `cleanRut(formatRut(x)) == cleanRut(x)`, and formatting twice is formatting once. */
  lemma FormatRutCleansBack(value: Option<string>)
    ensures CleanRut(Some(Formatted(CleanRut(value)))) == CleanRut(value)
    ensures Formatted(CleanRut(Some(Formatted(CleanRut(value))))) == Formatted(CleanRut(value))
  {
    FormatRoundTrip(CleanRut(value));
  }

  /** The printed form is empty exactly when nothing survives cleaning, and a single
      character is printed as it is. */
  lemma FormattedShape(v: string)
    ensures Formatted(v) == "" <==> v == ""
    ensures |v| == 1 ==> Formatted(v) == v
    ensures |v| >= 2 ==> Formatted(v)[|Formatted(v)| - 2] == '-'
  {
  }

  lemma FormatExample()
    ensures Formatted("123456785") == "12.345.678-5"
  {
    assert "123456785"[..8] == "12345678";
    GroupedExample();
  }

  lemma GroupedExample()
    ensures Grouped("12345678") == "12.345.678"
  {
    assert "12345678"[..5] == "12345" && "12345678"[5..] == "678";
    assert Grouped("12345") == "12.345" by {
      assert "12345"[..2] == "12" && "12345"[2..] == "345";
    }
  }

  // ---------------------------------------------------------------------------------------
  // validateRut
  // ---------------------------------------------------------------------------------------

  predicate AllDigits(s: string) {
    forall i :: 0 <= i < |s| ==> IsDigit(s[i])
  }

  function DigitValue(c: char): int
    requires IsDigit(c)
  {
    c as int - '0' as int
  }

  /** The weight of the j-th digit counted from the right, starting at 0: 2, 3, 4, 5, 6,
      7, then 2 again. */
  function Weight(j: nat): int {
    2 + j % 6
  }

  /** Each digit times its weight, summed. */
  function WeightedSum(b: string): (s: int)
    requires AllDigits(b)
    ensures s >= 0
  {
    if b == [] then 0 else DigitValue(b[0]) * Weight(|b| - 1) + WeightedSum(b[1..])
  }

  /** The check string for a result res = 11 - (sum % 11). */
  function CheckString(res: int): (s: string)
    ensures 1 <= res <= 11 ==> |s| == 1 && IsRutChar(s[0])
  {
    if res == 11 then "0" else if res == 10 then "K" else IntToString(res)
  }

  /** The check string the validator computes for a body: "NaN" when a character of the
      body is not a digit, since `parseInt` then yields NaN. */
  function ComputedCheck(body: string): string {
    if AllDigits(body) then CheckString(11 - WeightedSum(body) % 11) else "NaN"
  }

  /** What `validateRut` accepts, for an already cleaned RUT. */
  predicate Valid(v: string) {
    |v| >= 2 && ComputedCheck(v[..|v| - 1]) == [v[|v| - 1]]
  }

  /** `validateRut(value)`. */
  method ValidateRut(value: Option<string>) returns (ok: bool)
    ensures ok == Valid(CleanRut(value))
  {
    var v := CleanRut(value);
    if |v| < 2 {
      return false;
    }
    var body := v[..|v| - 1];
    var dv := [v[|v| - 1]];
    var sum, isNaN := SumDigits(body);
    var computed := if isNaN then "NaN" else CheckString(11 - sum % 11);
    ok := computed == dv;
  }

  /** The loop of `validateRut`: each digit from the right times a weight cycling from 2
      to 7, summed; isNaN records that some character was not a digit, so that `parseInt`
      made the sum NaN. */
  method SumDigits(body: string) returns (sum: int, isNaN: bool)
    ensures isNaN == !AllDigits(body)
    ensures !isNaN ==> sum == WeightedSum(body)
  {
    sum, isNaN := 0, false;
    var mul := 2;
    for i := |body| downto 0
      invariant mul == Weight(|body| - i)
      invariant isNaN == !AllDigits(body[i..])
      invariant !isNaN ==> sum == WeightedSum(body[i..])
    {
      SumStep(body, i);
      WeightStep(|body| - 1 - i);
      if IsDigit(body[i]) && !isNaN {
        sum := sum + DigitValue(body[i]) * mul;
      } else {
        isNaN := true;
      }
      mul := if mul == 7 then 2 else mul + 1;
    }
    assert body[0..] == body;
  }

  /** One step of the validation loop: the digit at i joins the digits after it. */
  lemma SumStep(body: string, i: nat)
    requires i < |body|
    ensures AllDigits(body[i..]) <==> IsDigit(body[i]) && AllDigits(body[i + 1..])
    ensures AllDigits(body[i..]) ==>
      WeightedSum(body[i..]) == DigitValue(body[i]) * Weight(|body| - 1 - i) + WeightedSum(body[i + 1..])
  {
    assert body[i..][1..] == body[i + 1..];
    assert forall k :: 1 <= k < |body[i..]| ==> body[i..][k] == body[i + 1..][k - 1];
  }

  /** The weights cycle 2, 3, ..., 7, 2, as `mul` does. */
  lemma WeightStep(j: nat)
    ensures Weight(j + 1) == if Weight(j) == 7 then 2 else Weight(j) + 1
  {
  }

  /** The check character of a body of digits: the check string the validator computes,
      which always has exactly one character. */
  function CheckChar(body: string): (c: char)
    requires AllDigits(body)
    ensures IsRutChar(c)
    ensures ComputedCheck(body) == [c]
  {
    var res := 11 - WeightedSum(body) % 11;
    assert 1 <= res <= 11;
    CheckString(res)[0]
  }

  /** A cleaned RUT is valid exactly when it has a body of digits followed by the body's
      check character. */
  lemma ValidIffCheckChar(v: string)
    ensures Valid(v) <==>
      |v| >= 2 && AllDigits(v[..|v| - 1]) && v[|v| - 1] == CheckChar(v[..|v| - 1])
  {
  }

  /** A K anywhere in the body makes the check fail. */
  lemma KInBodyIsInvalid(v: string, i: nat)
    requires i < |v| - 1 && v[i] == 'K'
    ensures !Valid(v)
  {
    assert v[..|v| - 1][i] == 'K';
  }

  /** Fewer than two significant characters are never valid. */
  lemma ShortIsInvalid(value: Option<string>)
    requires |CleanRut(value)| < 2
    ensures !Valid(CleanRut(value))
  {
  }

  /** Validating the printed form is validating the original, and a lower-case k check
      character is as good as an upper-case one. */
  lemma ValidationIgnoresFormatting(value: Option<string>, s: string)
    ensures Valid(CleanRut(Some(Formatted(CleanRut(value))))) == Valid(CleanRut(value))
    ensures Valid(CleanRut(Some(s + "k"))) == Valid(CleanRut(Some(s + "K")))
  {
    FormatRoundTrip(CleanRut(value));
    CleanIgnoresCase(s);
  }

  /** The RUT the intake form shows as an example is valid. */
  lemma ExampleIsValid()
    ensures Valid(CleanRut(Some("12.345.678-5")))
  {
    ExampleCleans();
    var v := "123456785";
    assert v[..|v| - 1] == "12345678";
    assert [v[|v| - 1]] == "5";
    ExampleCheck();
  }

  /** The example body's check string is "5". */
  lemma ExampleCheck()
    ensures ComputedCheck("12345678") == "5"
  {
    assert AllDigits("12345678");
    ExampleSum();
    assert 11 - 138 % 11 == 5;
    assert IntToString(5) == "5";
  }

  /** Cleaning the printed example gives back the digits. */
  lemma ExampleCleans()
    ensures CleanRut(Some("12.345.678-5")) == "123456785"
  {
    var v := "123456785";
    assert IsClean(v);
    FormatExample();
    FormatRoundTrip(v);
  }

  lemma ExampleSum()
    ensures WeightedSum("12345678") == 138
  {
    assert "12345678"[1..] == "2345678";
    assert "2345678"[1..] == "345678";
    assert "345678"[1..] == "45678";
    assert "45678"[1..] == "5678";
    assert "5678"[1..] == "678";
    assert "678"[1..] == "78";
    assert "78"[1..] == "8";
    assert "8"[1..] == "";
  }
}
