/** The token estimate that session counters add up (src/token_estimator.go). */
module TokenEstimator {
  import opened Text

  /** utf8.RuneLen(r) > 1. */
  predicate IsWide(r: char) {
    r as int >= 0x80
  }

  function WideRunes(s: string): nat {
    if s == [] then 0
    else WideRunes(s[..|s| - 1]) + if IsWide(s[|s| - 1]) then 1 else 0
  }

  /** Two tokens for every multi-byte rune, one for every four ASCII runes or part of four. */
  function Tokens(s: string): int {
    2 * WideRunes(s) + (|s| - WideRunes(s) + 3) / 4
  }

  /** The places of the characters that take more than one byte in UTF-8. */
  ghost function WidePlaces(s: string): set<int> {
    set i | 0 <= i < |s| && s[i] as int >= 0x80
  }

  lemma {:induction false} WideRunesAreCounted(s: string)
    ensures WideRunes(s) == |WidePlaces(s)|
  {
    if s != [] {
      var n := |s| - 1;
      WideRunesAreCounted(s[..n]);
      assert WidePlaces(s) == WidePlaces(s[..n]) + if s[n] as int >= 0x80 then {n} else {};
    } else {
      assert WidePlaces(s) == {};
    }
  }

  method EstimateTokens(text: string) returns (tokens: int)
    ensures tokens == Tokens(text)
    ensures tokens == 2 * |WidePlaces(text)| + (|text| - |WidePlaces(text)| + 3) / 4
  {
    WideRunesAreCounted(text);
    if |text| == 0 {
      return 0;
    }
    tokens := 0;
    var asciiCount := 0;
    for i := 0 to |text|
      invariant tokens == 2 * WideRunes(text[..i]) && asciiCount == i - WideRunes(text[..i])
    {
      assert text[..i + 1][..i] == text[..i];
      if IsWide(text[i]) {
        tokens := tokens + 2;
      } else {
        asciiCount := asciiCount + 1;
      }
    }
    assert text[..|text|] == text;
    WideRunesBounded(text);
    if asciiCount > 0 {
      tokens := tokens + (asciiCount + 3) / 4;
    }
  }

  lemma {:induction false} WideRunesBounded(s: string)
    ensures WideRunes(s) <= |s|
  {
    if s != [] {
      WideRunesBounded(s[..|s| - 1]);
    }
  }

  lemma {:induction false} WideRunesAdd(a: string, b: string)
    ensures WideRunes(a + b) == WideRunes(a) + WideRunes(b)
  {
    if b == [] {
      assert a + b == a;
    } else {
      assert (a + b)[..|a + b| - 1] == a + b[..|b| - 1];
      WideRunesAdd(a, b[..|b| - 1]);
    }
  }

  /** Cutting white space off the ends of a text never raises its estimate. */
  lemma {:induction false} TrimNeverCostsMore(s: string)
    ensures 0 <= Tokens(Trim(s)) <= Tokens(s)
  {
    var pre, post := TrimSplits(s);
    WideRunesAdd(pre, Trim(s));
    WideRunesAdd(pre + Trim(s), post);
    WideRunesBounded(pre);
    WideRunesBounded(Trim(s));
    WideRunesBounded(post);
  }

  // ----- Separate estimates against the estimate of the joined text -----

  function Concat(texts: seq<string>): string {
    if texts == [] then [] else Concat(texts[..|texts| - 1]) + texts[|texts| - 1]
  }

  function SumOfTokens(texts: seq<string>): int {
    if texts == [] then 0 else SumOfTokens(texts[..|texts| - 1]) + Tokens(texts[|texts| - 1])
  }

  /** Estimating k texts one by one overshoots the joined text by at most three quarters of a token each. */
  lemma {:induction false} AccountingBound(texts: seq<string>)
    ensures 0 <= 4 * (SumOfTokens(texts) - Tokens(Concat(texts))) <= 3 * |texts|
  {
    AccountingBoundNarrow(texts);
    WideRunesBounded(Concat(texts));
  }

  /** The same bound, with the rounding of the joined text left out. */
  lemma {:induction false} AccountingBoundNarrow(texts: seq<string>)
    ensures var c := Concat(texts);
            0 <= 4 * SumOfTokens(texts) - (8 * WideRunes(c) + |c| - WideRunes(c)) <= 3 * |texts|
  {
    if texts != [] {
      var init, last := texts[..|texts| - 1], texts[|texts| - 1];
      AccountingBoundNarrow(init);
      WideRunesAdd(Concat(init), last);
      WideRunesBounded(last);
    }
  }

  /** The bound is the best possible for every k: k one-letter texts attain it. */
  lemma {:induction false} BoundIsAttained(k: nat)
    ensures var texts := seq(k, _ => "a");
            SumOfTokens(texts) - Tokens(Concat(texts)) == 3 * k / 4
  {
    OneLetterTexts(k);
  }

  lemma {:induction false} OneLetterTexts(k: nat)
    ensures var texts := seq(k, _ => "a");
            SumOfTokens(texts) == k && |Concat(texts)| == k && WideRunes(Concat(texts)) == 0
  {
    if k > 0 {
      OneLetterTexts(k - 1);
      var texts := seq(k, _ => "a");
      assert texts[..k - 1] == seq(k - 1, _ => "a");
      assert "a"[..0] == [];
      assert WideRunes("a") == 0;
      WideRunesAdd(Concat(texts[..k - 1]), "a");
    }
  }
}
