/** The CPF input mask of the coin store (src/components/shop/CoinStore.tsx, formatCPF).

    formatCPF is a chain of five `String.prototype.replace` calls. Each call is modelled
    here as its own function with JavaScript's semantics: a non-global regular
    expression replaces only its leftmost match, found by trying every start position
    from left to right (FirstMatch); `\d` is `[0-9]` and `\D` its complement. The
    lemma FormatCpfIsMask shows the chain equals a closed form, Mask, on the digit
    string, and the shape lemmas are proved about that closed form. */
module Cpf {
  import opened Common

  function Min(a: int, b: int): int
  {
    if a <= b then a else b
  }

  /** `s.replace(/\D/g, '')`: every non-digit removed. */
  function StripNonDigits(s: string): (r: string)
    ensures AllDigits(r)
    ensures |r| <= |s|
  {
    if s == [] then [] else (if IsDigit(s[0]) then [s[0]] else []) + StripNonDigits(s[1..])
  }

  /** The leftmost start position in [from, |s|] at which the pattern `p` matches. */
  function FirstMatch(p: (string, nat) -> bool, s: string, from: nat): (r: Option<nat>)
    ensures r.Some? ==> from <= r.value <= |s| && p(s, r.value)
    ensures r.Some? ==> forall j :: from <= j < r.value ==> !p(s, j)
    ensures r.None? ==> forall j :: from <= j <= |s| ==> !p(s, j)
    decreases |s| + 1 - from
  {
    if from > |s| then None
    else if p(s, from) then Some(from)
    else FirstMatch(p, s, from + 1)
  }

  /** `s[..i] + replacement + s[i + len..]`: the text of a match at i of length len replaced. */
  function Splice(s: string, i: nat, len: nat, replacement: string): string
    requires i + len <= |s|
  {
    s[..i] + replacement + s[i + len..]
  }

  /** `/(\d{3})(\d)/` matches at i: four digits start there. */
  predicate ThreeThenOneAt(s: string, i: nat)
  {
    i + 4 <= |s| && IsDigit(s[i]) && IsDigit(s[i + 1]) && IsDigit(s[i + 2]) && IsDigit(s[i + 3])
  }

  /** `s.replace(/(\d{3})(\d)/, '$1.$2')`. */
  function DotStep(s: string): string
  {
    match FirstMatch(ThreeThenOneAt, s, 0)
    case None => s
    case Some(i) => Splice(s, i, 4, s[i..i + 3] + "." + s[i + 3..i + 4])
  }

  /** `/(\d{3})(\d{1,2})/` matches at i: at least four digits start there
      (the greedy `{1,2}` takes a fifth one when there is one, see DashMatchLength). */
  predicate ThreeThenOneOrTwoAt(s: string, i: nat)
  {
    ThreeThenOneAt(s, i)
  }

  function DashMatchLength(s: string, i: nat): (len: nat)
    requires ThreeThenOneOrTwoAt(s, i)
    ensures 4 <= len <= 5 && i + len <= |s|
  {
    if i + 5 <= |s| && IsDigit(s[i + 4]) then 5 else 4
  }

  /** `s.replace(/(\d{3})(\d{1,2})/, '$1-$2')`. */
  function DashStep(s: string): string
  {
    match FirstMatch(ThreeThenOneOrTwoAt, s, 0)
    case None => s
    case Some(i) =>
      var len := DashMatchLength(s, i);
      Splice(s, i, len, s[i..i + 3] + "-" + s[i + 3..i + len])
  }

  /** `/(-\d{2})\d+?$/` matches at i: a '-', two digits, then one or more digits up to
      the end of the input (the lazy `+?` grows until `$` holds, so it takes all of them). */
  predicate DashTwoThenTailAt(s: string, i: nat)
  {
    i + 3 < |s| && s[i] == '-' && IsDigit(s[i + 1]) && IsDigit(s[i + 2]) && AllDigits(s[i + 3..])
  }

  /** `s.replace(/(-\d{2})\d+?$/, '$1')`. */
  function TrimStep(s: string): string
  {
    match FirstMatch(DashTwoThenTailAt, s, 0)
    case None => s
    case Some(i) => Splice(s, i, |s| - i, s[i..i + 3])
  }

  /** formatCPF, exactly as the chain of replacements. */
  function FormatCpf(value: string): string
  {
    TrimStep(DashStep(DotStep(DotStep(StripNonDigits(value)))))
  }

  /** The closed form: a prefix of the mask `ddd.ddd.ddd-dd` filled with the digits. */
  function Mask(d: string): string
  {
    var n := |d|;
    if n <= 3 then d
    else if n <= 6 then d[..3] + "." + d[3..]
    else if n <= 9 then d[..3] + "." + d[3..6] + "." + d[6..]
    else d[..3] + "." + d[3..6] + "." + d[6..9] + "-" + d[9..Min(n, 11)]
  }

  // ---------------------------------------------------------------------------
  // The replacement chain equals the closed form

  lemma DotStepOnDigits(d: string)
    requires AllDigits(d)
    ensures DotStep(d) == if |d| >= 4 then d[..3] + "." + d[3..] else d
  {
    if |d| >= 4 {
      assert ThreeThenOneAt(d, 0);
      DotStepOnFourDigits(d);
    } else {
      var m := FirstMatch(ThreeThenOneAt, d, 0);
      assert m.Some? ==> ThreeThenOneAt(d, m.value);
    }
  }

  /** Only the first four characters matter: they are digits, so the match is at 0. */
  lemma DotStepOnFourDigits(d: string)
    requires ThreeThenOneAt(d, 0)
    ensures DotStep(d) == d[..3] + "." + d[3..]
  {
    calc {
      DotStep(d);
    == { assert FirstMatch(ThreeThenOneAt, d, 0) == Some(0); }
      Splice(d, 0, 4, d[0..3] + "." + d[3..4]);
    == { assert d[..0] == []; }
      (d[0..3] + "." + d[3..4]) + d[4..];
    == { assert d[0..3] == d[..3]; }
      d[..3] + "." + (d[3..4] + d[4..]);
    == { assert d[3..4] + d[4..] == d[3..]; }
      d[..3] + "." + d[3..];
    }
  }

  /** Indexing into a string with one character inserted at position k. */
  lemma Inserted(d: string, k: nat, c: char)
    requires k <= |d|
    ensures |d[..k] + [c] + d[k..]| == |d| + 1
    ensures (d[..k] + [c] + d[k..])[k] == c
    ensures forall i :: 0 <= i < k ==> (d[..k] + [c] + d[k..])[i] == d[i]
    ensures forall i :: k < i <= |d| ==> (d[..k] + [c] + d[k..])[i] == d[i - 1]
  {
  }

  lemma SecondDotStep(d: string)
    requires AllDigits(d) && |d| >= 4
    ensures DotStep(d[..3] + "." + d[3..]) ==
      if |d| >= 7 then d[..3] + "." + d[3..6] + "." + d[6..] else d[..3] + "." + d[3..]
  {
    if |d| >= 7 {
      SecondDotStepLong(d);
    } else {
      SecondDotStepShort(d);
    }
  }

  /** After the first dot, no match can start before position 4. */
  lemma FirstDotSkipped(d: string)
    requires AllDigits(d) && |d| >= 4
    ensures FirstMatch(ThreeThenOneAt, d[..3] + "." + d[3..], 0) == FirstMatch(ThreeThenOneAt, d[..3] + "." + d[3..], 4)
  {
    var s := d[..3] + "." + d[3..];
    Inserted(d, 3, '.');
    assert !ThreeThenOneAt(s, 0) && !ThreeThenOneAt(s, 1) && !ThreeThenOneAt(s, 2) && !ThreeThenOneAt(s, 3);
  }

  lemma SecondDotStepLong(d: string)
    requires AllDigits(d) && |d| >= 7
    ensures DotStep(d[..3] + "." + d[3..]) == d[..3] + "." + d[3..6] + "." + d[6..]
  {
    var s := d[..3] + "." + d[3..];
    Inserted(d, 3, '.');
    FirstDotSkipped(d);
    assert ThreeThenOneAt(s, 4) by {
      assert s[4] == d[3] && s[5] == d[4] && s[6] == d[5] && s[7] == d[6];
    }
    assert FirstMatch(ThreeThenOneAt, s, 0) == Some(4);
    assert s[..4] == d[..3] + "." && s[4..7] == d[3..6] && s[7..8] + s[8..] == d[6..];
  }

  lemma SecondDotStepShort(d: string)
    requires AllDigits(d) && 4 <= |d| < 7
    ensures DotStep(d[..3] + "." + d[3..]) == d[..3] + "." + d[3..]
  {
    var s := d[..3] + "." + d[3..];
    FirstDotSkipped(d);
    var m := FirstMatch(ThreeThenOneAt, s, 0);
    assert m.Some? ==> ThreeThenOneAt(s, m.value);
  }

  /** The shape of the text after the two dot steps, for 7 or more digits. */
  function TwoDots(d: string): string
    requires |d| >= 6
  {
    d[..3] + "." + d[3..6] + "." + d[6..]
  }

  lemma DashStepOnOneDot(d: string)
    requires AllDigits(d) && 4 <= |d| <= 6
    ensures DashStep(d[..3] + "." + d[3..]) == d[..3] + "." + d[3..]
  {
    var s := d[..3] + "." + d[3..];
    assert s[3] == '.';
    var m := FirstMatch(ThreeThenOneOrTwoAt, s, 0);
    assert m.Some? ==> ThreeThenOneOrTwoAt(s, m.value);
  }

  lemma DashStepOnTwoDots(d: string)
    requires AllDigits(d) && |d| >= 7
    ensures DashStep(TwoDots(d)) ==
      if |d| >= 10 then d[..3] + "." + d[3..6] + "." + d[6..9] + "-" + d[9..] else TwoDots(d)
  {
    var s := TwoDots(d);
    assert s[3] == '.' && s[7] == '.';
    assert forall j :: 0 <= j < 8 ==> !ThreeThenOneOrTwoAt(s, j);
    var m := FirstMatch(ThreeThenOneOrTwoAt, s, 0);
    if |d| >= 10 {
      assert s[8..12] == d[6..10];
      assert ThreeThenOneOrTwoAt(s, 8);
      assert m == Some(8);
      var len := DashMatchLength(s, 8);
      assert s[..8] + (s[8..11] + "-" + s[11..8 + len]) + s[8 + len..]
          == d[..3] + "." + d[3..6] + "." + d[6..9] + "-" + d[9..];
    } else {
      assert m.Some? ==> ThreeThenOneOrTwoAt(s, m.value);
    }
  }

  lemma TrimStepWithoutDash(s: string)
    requires forall i :: 0 <= i < |s| ==> s[i] != '-'
    ensures TrimStep(s) == s
  {
    var m := FirstMatch(DashTwoThenTailAt, s, 0);
    assert m.Some? ==> DashTwoThenTailAt(s, m.value);
  }

  lemma TrimStepOnDash(d: string)
    requires AllDigits(d) && |d| >= 10
    ensures TrimStep(d[..3] + "." + d[3..6] + "." + d[6..9] + "-" + d[9..]) ==
      d[..3] + "." + d[3..6] + "." + d[6..9] + "-" + d[9..Min(|d|, 11)]
  {
    var s := d[..3] + "." + d[3..6] + "." + d[6..9] + "-" + d[9..];
    assert |s| == |d| + 3;
    assert forall i :: 0 <= i < |s| && i != 11 ==> s[i] != '-';
    var m := FirstMatch(DashTwoThenTailAt, s, 0);
    assert m.Some? ==> DashTwoThenTailAt(s, m.value) && m.value == 11;
    if |d| >= 12 {
      assert s[14..] == d[11..];
      assert s[11] == '-' && s[12] == d[9] && s[13] == d[10];
      assert DashTwoThenTailAt(s, 11);
      assert m == Some(11);
      assert s[..11] + s[11..14] + s[|s|..] == d[..3] + "." + d[3..6] + "." + d[6..9] + "-" + d[9..11];
    } else {
      assert !DashTwoThenTailAt(s, 11);
    }
  }

  /** The four replacements after the first, on a digit string. */
  function Chain(d: string): string
  {
    TrimStep(DashStep(DotStep(DotStep(d))))
  }

  lemma ChainUpToThree(d: string)
    requires AllDigits(d) && |d| <= 3
    ensures Chain(d) == Mask(d)
  {
    DotStepOnDigits(d);
    DotStepOnDigits(d);
    assert DashStep(d) == d by {
      var m := FirstMatch(ThreeThenOneOrTwoAt, d, 0);
      assert m.Some? ==> ThreeThenOneOrTwoAt(d, m.value);
    }
    TrimStepWithoutDash(d);
  }

  lemma ChainUpToSix(d: string)
    requires AllDigits(d) && 4 <= |d| <= 6
    ensures Chain(d) == Mask(d)
  {
    var s := d[..3] + "." + d[3..];
    DotStepOnDigits(d);
    SecondDotStep(d);
    assert DotStep(DotStep(d)) == s;
    DashStepOnOneDot(d);
    assert forall i :: 0 <= i < |s| ==> s[i] != '-';
    TrimStepWithoutDash(s);
  }

  lemma ChainUpToNine(d: string)
    requires AllDigits(d) && 7 <= |d| <= 9
    ensures Chain(d) == Mask(d)
  {
    var s := TwoDots(d);
    DotStepOnDigits(d);
    SecondDotStep(d);
    assert DotStep(DotStep(d)) == s;
    DashStepOnTwoDots(d);
    assert forall i :: 0 <= i < |s| ==> s[i] != '-';
    TrimStepWithoutDash(s);
  }

  lemma ChainFromTen(d: string)
    requires AllDigits(d) && |d| >= 10
    ensures Chain(d) == Mask(d)
  {
    DotStepOnDigits(d);
    SecondDotStep(d);
    assert DotStep(DotStep(d)) == TwoDots(d);
    DashStepOnTwoDots(d);
    TrimStepOnDash(d);
  }

  /** formatCPF(x) is the mask filled with the digits of x. */
  lemma FormatCpfIsMask(value: string)
    ensures FormatCpf(value) == Mask(StripNonDigits(value))
  {
    var d := StripNonDigits(value);
    assert FormatCpf(value) == Chain(d);
    if |d| <= 3 {
      ChainUpToThree(d);
    } else if |d| <= 6 {
      ChainUpToSix(d);
    } else if |d| <= 9 {
      ChainUpToNine(d);
    } else {
      ChainFromTen(d);
    }
  }

  // ---------------------------------------------------------------------------
  // Facts about StripNonDigits

  lemma {:induction false} StripConcat(a: string, b: string)
    ensures StripNonDigits(a + b) == StripNonDigits(a) + StripNonDigits(b)
  {
    if a != [] {
      assert (a + b)[1..] == a[1..] + b;
      StripConcat(a[1..], b);
    } else {
      assert a + b == b;
    }
  }

  /** Exactly the digits of the input survive: every digit is kept and nothing else. */
  lemma {:induction false} StripKeepsDigits(s: string)
    ensures forall c :: c in StripNonDigits(s) <==> c in s && IsDigit(c)
  {
    if s != [] {
      StripKeepsDigits(s[1..]);
      assert s == [s[0]] + s[1..];
    }
  }

  lemma {:induction false} StripDigits(d: string)
    requires AllDigits(d)
    ensures StripNonDigits(d) == d
  {
    if d != [] {
      StripDigits(d[1..]);
    }
  }

  // ---------------------------------------------------------------------------
  // The shape of the closed form

  /** Only digits and the two separators occur in the mask. */
  predicate MaskAlphabet(s: string)
  {
    forall i :: 0 <= i < |s| ==> IsDigit(s[i]) || s[i] == '.' || s[i] == '-'
  }

  lemma MaskLength(d: string)
    ensures |Mask(d)| <= 14
    ensures |Mask(d)| == 14 <==> |d| >= 11
  {
  }

  lemma StripAroundSeparator(a: string, c: char, b: string)
    requires !IsDigit(c)
    ensures StripNonDigits(a + [c] + b) == StripNonDigits(a) + StripNonDigits(b)
  {
    var ac := a + [c];
    assert a + [c] + b == ac + b;
    StripConcat(ac, b);
    StripConcat(a, [c]);
    assert [c][1..] == [];
    assert StripNonDigits([c]) == [];
    assert StripNonDigits(ac) == StripNonDigits(a);
  }

  lemma MaskDigitsUpToSix(d: string)
    requires AllDigits(d) && 4 <= |d| <= 6
    ensures StripNonDigits(Mask(d)) == d
  {
    StripDigits(d[..3]);
    StripDigits(d[3..]);
    StripAroundSeparator(d[..3], '.', d[3..]);
    assert d[..3] + d[3..] == d;
  }

  lemma MaskDigitsUpToNine(d: string)
    requires AllDigits(d) && 7 <= |d| <= 9
    ensures StripNonDigits(Mask(d)) == d
  {
    var a := d[..3] + "." + d[3..6];
    StripDigits(d[..3]);
    StripDigits(d[3..6]);
    StripDigits(d[6..]);
    StripAroundSeparator(d[..3], '.', d[3..6]);
    StripAroundSeparator(a, '.', d[6..]);
    assert Mask(d) == a + "." + d[6..];
    assert d[..3] + d[3..6] + d[6..] == d;
  }

  lemma MaskDigitsFromTen(d: string)
    requires AllDigits(d) && |d| >= 10
    ensures StripNonDigits(Mask(d)) == d[..Min(|d|, 11)]
  {
    var m := Min(|d|, 11);
    var p1, p2, p3, p4 := d[..3], d[3..6], d[6..9], d[9..m];
    var a := p1 + "." + p2;
    var b := a + "." + p3;
    StripDigits(p1);
    StripDigits(p2);
    StripDigits(p3);
    StripDigits(p4);
    StripAroundSeparator(p1, '.', p2);
    StripAroundSeparator(a, '.', p3);
    StripAroundSeparator(b, '-', p4);
    assert Mask(d) == b + "-" + p4;
    assert p1 + p2 + p3 + p4 == d[..m];
  }

  lemma MaskDigits(d: string)
    requires AllDigits(d)
    ensures StripNonDigits(Mask(d)) == d[..Min(|d|, 11)]
  {
    if |d| <= 3 {
      StripDigits(d);
      assert d[..|d|] == d;
    } else if |d| <= 6 {
      MaskDigitsUpToSix(d);
      assert d[..|d|] == d;
    } else if |d| <= 9 {
      MaskDigitsUpToNine(d);
      assert d[..|d|] == d;
    } else {
      MaskDigitsFromTen(d);
    }
  }

  /** '.' sits at positions 3 and 7 and '-' at position 11, each exactly when a digit
      follows it; every other position holds a digit. */
  predicate SeparatorsPlaced(s: string, n: nat)
  {
    && (n >= 4 <==> |s| > 3 && s[3] == '.')
    && (n >= 7 <==> |s| > 7 && s[7] == '.')
    && (n >= 10 <==> |s| > 11 && s[11] == '-')
    && forall i :: 0 <= i < |s| && i != 3 && i != 7 && i != 11 ==> IsDigit(s[i])
  }

  lemma MaskSeparators(d: string)
    requires AllDigits(d)
    ensures SeparatorsPlaced(Mask(d), |d|)
    ensures MaskAlphabet(Mask(d))
  {
    var n, s := |d|, Mask(d);
    if 4 <= n <= 6 {
      Inserted(d, 3, '.');
    } else if 7 <= n <= 9 {
      assert forall i :: 0 <= i < 3 ==> s[i] == d[i];
      assert forall i :: 4 <= i < 7 ==> s[i] == d[i - 1];
      assert forall i :: 8 <= i < |s| ==> s[i] == d[i - 2];
    } else if n >= 10 {
      assert forall i :: 0 <= i < 3 ==> s[i] == d[i];
      assert forall i :: 4 <= i < 7 ==> s[i] == d[i - 1];
      assert forall i :: 8 <= i < 11 ==> s[i] == d[i - 2];
      assert forall i :: 12 <= i < |s| ==> s[i] == d[i - 3];
    }
  }

  // ---------------------------------------------------------------------------
  // What formatCPF promises, for every input

  /** The output holds only digits, '.' and '-'. */
  lemma FormatCpfAlphabet(value: string)
    ensures MaskAlphabet(FormatCpf(value))
  {
    FormatCpfIsMask(value);
    MaskSeparators(StripNonDigits(value));
  }

  /** The digits of the output are the first min(n, 11) digits of the input. */
  lemma FormatCpfDigits(value: string)
    ensures var d := StripNonDigits(value);
      StripNonDigits(FormatCpf(value)) == d[..Min(|d|, 11)]
  {
    FormatCpfIsMask(value);
    MaskDigits(StripNonDigits(value));
  }

  /** Separators after the 3rd and 6th digit ('.') and the 9th ('-'), each only when
      another digit follows. */
  lemma FormatCpfSeparators(value: string)
    ensures SeparatorsPlaced(FormatCpf(value), |StripNonDigits(value)|)
  {
    FormatCpfIsMask(value);
    MaskSeparators(StripNonDigits(value));
  }

  /** A full mask (14 characters) exactly when the input has at least 11 digits. */
  lemma FormatCpfLength(value: string)
    ensures |FormatCpf(value)| <= 14
    ensures |FormatCpf(value)| == 14 <==> |StripNonDigits(value)| >= 11
  {
    FormatCpfIsMask(value);
    MaskLength(StripNonDigits(value));
  }

  /** The mask ignores digits beyond the eleventh. */
  lemma MaskOfPrefix(d: string)
    ensures Mask(d[..Min(|d|, 11)]) == Mask(d)
  {
    var e := d[..Min(|d|, 11)];
    if |d| >= 12 {
      assert e[..3] == d[..3] && e[3..6] == d[3..6] && e[6..9] == d[6..9] && e[9..11] == d[9..11];
    } else {
      assert e == d;
    }
  }

  /** Formatting an already formatted value changes nothing. */
  lemma FormatCpfIdempotent(value: string)
    ensures FormatCpf(FormatCpf(value)) == FormatCpf(value)
  {
    var d := StripNonDigits(value);
    var once := FormatCpf(value);
    FormatCpfIsMask(value);
    FormatCpfIsMask(once);
    MaskDigits(d);
    MaskOfPrefix(d);
    calc {
      FormatCpf(once);
      Mask(StripNonDigits(once));
      Mask(StripNonDigits(Mask(d)));
      Mask(d[..Min(|d|, 11)]);
      Mask(d);
      once;
    }
  }
}
