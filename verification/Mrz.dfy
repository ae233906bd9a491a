/** The machine readable zone of a passport: check digits and the repair of a line to its fixed width. */
module Mrz {
  // ---- Check digits (section 4.9 of ICAO Doc 9303 Part 3) ---------------------------------------

  predicate MrzChar(c: char) {
    '0' <= c <= '9' || 'A' <= c <= 'Z' || c == '<'
  }

  predicate MrzText(s: string) {
    forall i :: 0 <= i < |s| ==> MrzChar(s[i])
  }

  function CharValue(c: char): int {
    if '0' <= c <= '9' then c as int - '0' as int
    else if c == '<' then 0
    else c as int - 55
  }

  function Weight(i: nat): int {
    if i % 3 == 0 then 7 else if i % 3 == 1 then 3 else 1
  }

  function WeightedSum(data: string): int {
    if data == "" then 0
    else WeightedSum(data[..|data| - 1]) + CharValue(data[|data| - 1]) * Weight(|data| - 1)
  }

  function Checksum(data: string): int {
    WeightedSum(data) % 10
  }

  method MrzChecksum(data: string) returns (digit: int)
    ensures digit == Checksum(data)
    ensures 0 <= digit <= 9
  {
    var weights := [7, 3, 1];
    var total := 0;
    for i := 0 to |data|
      invariant total == WeightedSum(data[..i])
    {
      var val := CharValue(data[i]);
      assert data[..i + 1][..i] == data[..i];
      total := total + val * weights[i % 3];
    }
    assert data[..|data|] == data;
    return total % 10;
  }

  /** The values of the standard: digits count as themselves, letters from ten on, the filler nothing. */
  lemma CharValues(k: nat)
    ensures k <= 9 ==> CharValue(('0' as int + k) as char) == k
    ensures k <= 25 ==> CharValue(('A' as int + k) as char) == 10 + k
    ensures CharValue('<') == 0
  {
  }

  /** The weights of the standard, and the sum they make. */
  lemma WeightsRepeat(data: string, c: char)
    ensures WeightedSum("") == 0
    ensures WeightedSum(data + [c])
         == WeightedSum(data)
            + CharValue(c) * (if |data| % 3 == 0 then 7 else if |data| % 3 == 1 then 3 else 1)
  {
    assert (data + [c])[..|data|] == data;
  }

  /** What reading `to` for `from` at place i adds to the sum. */
  function Shift(from: char, to: char, i: nat): int {
    (CharValue(to) - CharValue(from)) * Weight(i)
  }

  lemma {:induction false} SumAfterSubstitution(data: string, i: nat, c: char)
    requires i < |data|
    ensures WeightedSum(data[i := c]) == WeightedSum(data) + Shift(data[i], c, i)
  {
    var n := |data| - 1;
    if i < n {
      assert data[i := c][..n] == data[..n][i := c];
      SumAfterSubstitution(data[..n], i, c);
    } else {
      assert data[i := c][..n] == data[..n];
      assert CharValue(c) * Weight(i)
          == CharValue(data[i]) * Weight(i) + (CharValue(c) - CharValue(data[i])) * Weight(i);
    }
  }

  /** A change of the sum goes unnoticed exactly when it is a multiple of ten. */
  lemma NoticedIff(total: int, change: int)
    ensures (total + change) % 10 != total % 10 <==> change % 10 != 0
  {
  }

  /** One misread character changes the check digit exactly when the two values differ modulo ten. */
  lemma SubstitutionIsNoticedIff(data: string, i: nat, c: char)
    requires MrzText(data) && MrzChar(c) && i < |data|
    ensures Checksum(data[i := c]) != Checksum(data) <==> CharValue(c) % 10 != CharValue(data[i]) % 10
  {
    SumAfterSubstitution(data, i, c);
    var d := CharValue(c) - CharValue(data[i]);
    NoticedIff(WeightedSum(data), Shift(data[i], c, i));
    NoticedIff(CharValue(data[i]), d);
    WeightsAreUnits(d);
  }

  lemma SevenIsUnit(d: int)
    ensures (d * 7) % 10 == 0 <==> d % 10 == 0
  {
    assert d * 7 == 10 * (7 * (d / 10)) + 7 * (d % 10);
  }

  lemma ThreeIsUnit(d: int)
    ensures (d * 3) % 10 == 0 <==> d % 10 == 0
  {
    assert d * 3 == 10 * (3 * (d / 10)) + 3 * (d % 10);
  }

  /** 7, 3 and 1 have no factor in common with ten. */
  lemma WeightsAreUnits(d: int)
    ensures (d * 7) % 10 == 0 <==> d % 10 == 0
    ensures (d * 3) % 10 == 0 <==> d % 10 == 0
  {
    SevenIsUnit(d);
    ThreeIsUnit(d);
  }

  function Swapped(data: string, i: nat): string
    requires i + 1 < |data|
  {
    data[i := data[i + 1]][i + 1 := data[i]]
  }

  function WeightGap(i: nat): (g: int)
    ensures g == 4 || g == 2 || g == -6
  {
    Weight(i) - Weight(i + 1)
  }

  lemma GapOfFour(d: int)
    ensures (d * 4) % 10 == 0 <==> d % 5 == 0
  {
    assert d * 4 == 10 * (2 * (d / 5)) + 4 * (d % 5);
  }

  lemma GapOfTwo(d: int)
    ensures (d * 2) % 10 == 0 <==> d % 5 == 0
  {
    assert d * 2 == 10 * (d / 5) + 2 * (d % 5);
  }

  lemma GapOfMinusSix(d: int)
    ensures (d * -6) % 10 == 0 <==> d % 5 == 0
  {
    var k, m := d / 5, d % 5;
    assert d * -6 == 10 * (-3 * k - m) + 4 * m;
    TensDoNotShow(-3 * k - m, 4 * m);
  }

  lemma TensDoNotShow(a: int, b: int)
    ensures (10 * a + b) % 10 == b % 10
  {
  }

  /** Neighbouring weights differ by twice a number with no factor in common with five. */
  lemma GapIsNoticedIff(d: int, g: int)
    requires g == 4 || g == 2 || g == -6
    ensures (d * g) % 10 == 0 <==> d % 5 == 0
  {
    if g == 4 {
      GapOfFour(d);
    } else if g == 2 {
      GapOfTwo(d);
    } else {
      GapOfMinusSix(d);
    }
  }

  lemma SameModFive(a: int, b: int)
    ensures (a - b) % 5 == 0 <==> a % 5 == b % 5
  {
  }

  /** What reading b a for a b at place i adds to the sum. */
  function SwapShift(a: char, b: char, i: nat): int {
    (CharValue(b) - CharValue(a)) * WeightGap(i)
  }

  lemma SwapIsTwoShifts(a: char, b: char, i: nat)
    ensures Shift(a, b, i) + Shift(b, a, i + 1) == SwapShift(a, b, i)
  {
  }

  lemma SumAfterSwap(data: string, i: nat)
    requires i + 1 < |data|
    ensures WeightedSum(Swapped(data, i)) == WeightedSum(data) + SwapShift(data[i], data[i + 1], i)
  {
    SumAfterSubstitution(data, i, data[i + 1]);
    SumAfterSubstitution(data[i := data[i + 1]], i + 1, data[i]);
    SwapIsTwoShifts(data[i], data[i + 1], i);
  }

  /** Two neighbours read in the wrong order change it exactly when their values differ modulo five. */
  lemma SwapIsNoticedIff(data: string, i: nat)
    requires MrzText(data) && i + 1 < |data|
    ensures Checksum(Swapped(data, i)) != Checksum(data) <==> CharValue(data[i]) % 5 != CharValue(data[i + 1]) % 5
  {
    SumAfterSwap(data, i);
    NoticedIff(WeightedSum(data), SwapShift(data[i], data[i + 1], i));
    GapIsNoticedIff(CharValue(data[i + 1]) - CharValue(data[i]), WeightGap(i));
    SameModFive(CharValue(data[i + 1]), CharValue(data[i]));
  }

  // ---- Normalization --------------------------------------------------------------------------

  const WIDTH: nat := 44

  function Without(c: char, s: string): (r: string)
    ensures c !in r
    ensures |r| <= |s|
  {
    if s == "" then ""
    else Without(c, s[..|s| - 1]) + (if s[|s| - 1] == c then "" else [s[|s| - 1]])
  }

  function NonFillers(s: string): string {
    Without('<', s)
  }

  /** `line.rfind("<")` on a line that holds one. */
  function LastFiller(s: string): (i: nat)
    requires '<' in s
    ensures i < |s| && s[i] == '<' && '<' !in s[i + 1..]
  {
    if s[|s| - 1] == '<' then |s| - 1
    else
      assert s == s[..|s| - 1] + [s[|s| - 1]];
      var i := LastFiller(s[..|s| - 1]);
      assert s[i + 1..] == s[..|s| - 1][i + 1..] + [s[|s| - 1]];
      i
  }

  function DropLastFiller(s: string): (r: string)
    requires '<' in s
    ensures |r| == |s| - 1
  {
    s[..LastFiller(s)] + s[LastFiller(s) + 1..]
  }

  /** Fillers go from the right until the line fits or none is left. */
  function Squeezed(s: string): (r: string)
    ensures |s| <= WIDTH ==> r == s
    ensures |s| > WIDTH ==> |r| >= WIDTH && (|r| > WIDTH ==> '<' !in r)
    decreases |s|
  {
    if |s| > WIDTH && '<' in s then Squeezed(DropLastFiller(s)) else s
  }

  function Fillers(n: nat): (r: string)
    ensures |r| == n && forall i :: 0 <= i < n ==> r[i] == '<'
  {
    seq(n, i => '<')
  }

  function Padded(s: string, width: nat): string {
    if |s| < width then s + Fillers(width - |s|) else s
  }

  function Normalized(line: string): (r: string)
    ensures |r| == WIDTH
  {
    var s := Without(' ', line);
    if |s| == WIDTH then s else Padded(Squeezed(s), WIDTH)[..WIDTH]
  }

  /** The loop terminates on every line, since each round is a character shorter. */
  method NormalizeMrzLine(line: string) returns (fixed: string)
    ensures fixed == Normalized(line)
  {
    fixed := Without(' ', line);
    if |fixed| == WIDTH {
      return;
    }
    ghost var s := fixed;
    while |fixed| > WIDTH && '<' in fixed
      invariant Squeezed(fixed) == Squeezed(s)
      decreases |fixed|
    {
      var idx := LastFiller(fixed);
      fixed := fixed[..idx] + fixed[idx + 1..];
    }
    if |fixed| < WIDTH {
      fixed := fixed + Fillers(WIDTH - |fixed|);
    }
    fixed := fixed[..WIDTH];
  }

  lemma {:induction false} WithoutConcat(c: char, s: string, t: string)
    ensures Without(c, s + t) == Without(c, s) + Without(c, t)
  {
    if t == "" {
      assert s + t == s;
    } else {
      assert (s + t)[..|s + t| - 1] == s + t[..|t| - 1];
      WithoutConcat(c, s, t[..|t| - 1]);
    }
  }

  lemma {:induction false} WithoutNothing(c: char, s: string)
    requires c !in s
    ensures Without(c, s) == s
  {
    if s != "" {
      assert s == s[..|s| - 1] + [s[|s| - 1]];
      WithoutNothing(c, s[..|s| - 1]);
    }
  }

  lemma {:induction false} WithoutAll(c: char, s: string)
    requires forall i :: 0 <= i < |s| ==> s[i] == c
    ensures Without(c, s) == ""
  {
    if s != "" {
      WithoutAll(c, s[..|s| - 1]);
    }
  }

  lemma LeadingFiller(right: string)
    ensures NonFillers(['<'] + right) == NonFillers(right)
  {
    WithoutConcat('<', ['<'], right);
    assert NonFillers(['<']) == "";
  }

  lemma OneFillerLess(left: string, right: string)
    ensures NonFillers(left + (['<'] + right)) == NonFillers(left + right)
  {
    var tail := ['<'] + right;
    assert NonFillers(tail) == NonFillers(right) by { LeadingFiller(right); }
    assert NonFillers(left + tail) == NonFillers(left) + NonFillers(tail) by { WithoutConcat('<', left, tail); }
    assert NonFillers(left + right) == NonFillers(left) + NonFillers(right) by { WithoutConcat('<', left, right); }
  }

  /** Dropping the last filler at i: the part from k on loses just that filler. */
  lemma NonFillersAfterDrop(s: string, k: nat)
    requires '<' in s && k <= LastFiller(s)
    ensures DropLastFiller(s)[..k] == s[..k]
    ensures NonFillers(DropLastFiller(s)[k..]) == NonFillers(s[k..])
  {
    var i := LastFiller(s);
    SlicesAround(s, k, i);
    OneFillerLess(s[k..i], s[i + 1..]);
  }

  lemma SlicesAround(s: string, k: nat, i: nat)
    requires k <= i < |s|
    ensures s[k..] == s[k..i] + ([s[i]] + s[i + 1..])
    ensures (s[..i] + s[i + 1..])[k..] == s[k..i] + s[i + 1..]
    ensures (s[..i] + s[i + 1..])[..k] == s[..k]
  {
  }

  lemma NoFillerBehind(t: string, i: nat, k: nat)
    requires i <= k <= |t| && '<' !in t[i..]
    ensures t[..k] + NonFillers(t[k..]) == t[..i] + NonFillers(t[i..])
  {
    assert t[k..] == t[i..][k - i..];
    WithoutNothing('<', t[k..]);
    WithoutNothing('<', t[i..]);
    assert t[..k] + t[k..] == t == t[..i] + t[i..];
  }

  /** Squeezing keeps the line up to some place as it is, and of the rest everything but the fillers. */
  lemma {:induction false} SqueezedKeepsTheLeft(s: string) returns (k: nat)
    ensures k <= |s| && Squeezed(s) == s[..k] + NonFillers(s[k..])
    decreases |s|
  {
    if |s| > WIDTH && '<' in s {
      k := SqueezedKeepsTheLeft(DropLastFiller(s));
      if k <= LastFiller(s) {
        NonFillersAfterDrop(s, k);
      } else {
        var t := DropLastFiller(s);
        assert t[LastFiller(s)..] == s[LastFiller(s) + 1..];
        NoFillerBehind(t, LastFiller(s), k);
        k := LastFiller(s);
        NonFillersAfterDrop(s, k);
      }
    } else {
      k := |s|;
      assert s[..k] + NonFillers(s[k..]) == s;
    }
  }

  lemma SqueezedKeepsTheText(s: string)
    ensures NonFillers(Squeezed(s)) == NonFillers(s)
  {
    var k := SqueezedKeepsTheLeft(s);
    assert s == s[..k] + s[k..];
    WithoutConcat('<', s[..k], s[k..]);
    WithoutConcat('<', s[..k], NonFillers(s[k..]));
    WithoutNothing('<', NonFillers(s[k..]));
  }

  function Prefix(s: string, n: nat): string {
    if |s| <= n then s else s[..n]
  }

  /** A short line is filled up on the right, a long one without fillers is cut there. */
  lemma LinesAreFitted(line: string)
    requires ' ' !in line
    ensures |line| <= 44 ==> Normalized(line) == line + Fillers(44 - |line|)
    ensures |line| > 44 && '<' !in line ==> Normalized(line) == line[..44]
  {
    WithoutNothing(' ', line);
  }

  /** Every line: the characters that are not fillers survive in order, up to the width; so they all survive when
      there are at most 44 of them. */
  lemma NormalizationKeepsTheText(line: string)
    ensures NonFillers(Normalized(line)) == Prefix(NonFillers(Without(' ', line)), WIDTH)
  {
    var s := Without(' ', line);
    var r := Squeezed(s);
    SqueezedKeepsTheText(s);
    FittedText(r);
    assert |s| == WIDTH ==> Padded(r, WIDTH)[..WIDTH] == s;
  }

  lemma FittedText(r: string)
    requires |r| > WIDTH ==> '<' !in r
    ensures NonFillers(Padded(r, WIDTH)[..WIDTH]) == Prefix(NonFillers(r), WIDTH)
  {
    if |r| <= WIDTH {
      var pad := Fillers(if |r| < WIDTH then WIDTH - |r| else 0);
      assert Padded(r, WIDTH)[..WIDTH] == r + pad;
      WithoutConcat('<', r, pad);
      WithoutAll('<', pad);
      WithoutShorter('<', r);
    } else {
      WithoutNothing('<', r);
      WithoutNothing('<', r[..WIDTH]);
    }
  }

  lemma WithoutShorter(c: char, s: string)
    ensures |Without(c, s)| <= |s|
  {
  }

  lemma {:induction false} WithoutKeeps(c: char, d: char, s: string)
    requires c !in s
    ensures c !in Without(d, s)
  {
    if s != "" {
      WithoutKeeps(c, d, s[..|s| - 1]);
    }
  }

  lemma NormalizedHasNoSpace(line: string)
    ensures ' ' !in Normalized(line)
  {
    var s := Without(' ', line);
    var k := SqueezedKeepsTheLeft(s);
    WithoutKeeps(' ', '<', s[k..]);
    assert forall c :: c in Normalized(line) ==> c in Squeezed(s) || c == '<' || c in s;
  }

  /** Normalizing twice changes nothing. */
  lemma NormalizationIsIdempotent(line: string)
    ensures Normalized(Normalized(line)) == Normalized(line)
  {
    NormalizedHasNoSpace(line);
    WithoutNothing(' ', Normalized(line));
  }

  /** A full line the scanner lengthened by fillers on the right is repaired exactly. */
  lemma {:induction false} TrailingFillersAreRepaired(line: string, extra: nat)
    requires |line| == WIDTH && ' ' !in line
    ensures Normalized(line + Fillers(extra)) == line
  {
    var s := line + Fillers(extra);
    WithoutNothing(' ', s);
    SqueezeExtra(line, extra);
    if extra > 0 {
      assert Padded(line, WIDTH)[..WIDTH] == line;
    } else {
      assert s == line;
    }
  }

  lemma {:induction false} SqueezeExtra(line: string, extra: nat)
    requires |line| == WIDTH
    ensures Squeezed(line + Fillers(extra)) == line
  {
    var s := line + Fillers(extra);
    if extra > 0 {
      assert s[|s| - 1] == '<';
      assert DropLastFiller(s) == line + Fillers(extra - 1);
      SqueezeExtra(line, extra - 1);
    } else {
      assert s == line;
    }
  }
}
