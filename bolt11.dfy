/**
 * The satoshi amount of a BOLT #11 invoice, read from its human-readable
 * part the way the service reads it: the first match of the unanchored,
 * case-insensitive pattern `lnbc(\d+)([munp]?)`, then a case-sensitive
 * switch on the multiplier letter.
 */
module Bolt11 {
  import opened Wrappers
  import opened Decimal

  /** ASCII lower case, as the `i` flag compares letters. */
  function LowerChar(c: char): char {
    if 'A' <= c <= 'Z' then (c as int + 32) as char else c
  }

  /** The pattern `lnbc\d` (case-insensitive) starts at position `i` of `s`. */
  predicate MatchesAt(s: string, i: nat) {
    && i + 5 <= |s|
    && LowerChar(s[i]) == 'l' && LowerChar(s[i + 1]) == 'n'
    && LowerChar(s[i + 2]) == 'b' && LowerChar(s[i + 3]) == 'c'
    && IsDigit(s[i + 4])
  }

  /** The leftmost position at or after `from` where the pattern matches. */
  function FindMatch(s: string, from: nat): (r: Option<nat>)
    ensures r.Some? ==> from <= r.value && MatchesAt(s, r.value)
                        && forall j :: from <= j < r.value ==> !MatchesAt(s, j)
    ensures r.None? ==> forall j :: from <= j ==> !MatchesAt(s, j)
    decreases |s| - from
  {
    if |s| < from + 5 then None
    else if MatchesAt(s, from) then Some(from)
    else FindMatch(s, from + 1)
  }

  /** Where the greedy digit run `\d+` that starts at `j` ends. */
  function DigitRunEnd(s: string, j: nat): (e: nat)
    requires j <= |s|
    ensures j <= e <= |s| && AllDigits(s[j..e])
    ensures e == |s| || !IsDigit(s[e])
    decreases |s| - j
  {
    if j < |s| && IsDigit(s[j]) then DigitRunEnd(s, j + 1) else j
  }

  /** The optional group `([munp]?)` at position `e`, letters in either case. */
  function MultiplierAt(s: string, e: nat): string
    requires e <= |s|
  {
    if e < |s| && LowerChar(s[e]) in "munp" then [s[e]] else ""
  }

  /** The `switch` on the captured multiplier; only lower-case letters have their own case. */
  function SatsFor(amount: nat, multiplier: string): (sats: nat)
  {
    if multiplier == "m" then amount * 100000
    else if multiplier == "u" then amount * 100
    else if multiplier == "n" then amount / 10
    else if multiplier == "p" then amount / 10000
    else amount * 100000000
  }

  /**
   * A multiplier only scales down from whole bitcoin, and anything but the
   * four lower-case letters, upper-case ones included, is whole bitcoin.
   */
  lemma SatsForAtMostWholeBitcoin(amount: nat, multiplier: string)
    ensures SatsFor(amount, multiplier) <= amount * 100000000
    ensures multiplier !in ["m", "u", "n", "p"] ==> SatsFor(amount, multiplier) == amount * 100000000
  {
  }

  /** `parseAmountFromBolt11`: satoshis of the first `lnbc<digits>` in the string, 0 when there is none. */
  function ParseAmountFromBolt11(bolt11: string): (sats: nat)
    ensures (forall i :: !MatchesAt(bolt11, i)) ==> sats == 0
  {
    match FindMatch(bolt11, 0)
    case None => 0
    case Some(i) =>
      var e := DigitRunEnd(bolt11, i + 4);
      SatsFor(DigitsValue(bolt11[i + 4..e]), MultiplierAt(bolt11, e))
  }

  /** Four characters that read as `lnbc` under the `i` flag, whatever their case. */
  predicate SpellsLnbc(q: string) {
    && |q| == 4
    && LowerChar(q[0]) == 'l' && LowerChar(q[1]) == 'n'
    && LowerChar(q[2]) == 'b' && LowerChar(q[3]) == 'c'
  }

  /** The greedy digit run ends exactly where a given all-digit stretch is followed by a non-digit. */
  lemma DigitRunEndAt(s: string, j: nat, e: nat)
    requires j <= e <= |s| && AllDigits(s[j..e])
    requires e == |s| || !IsDigit(s[e])
    ensures DigitRunEnd(s, j) == e
  {
    var d := DigitRunEnd(s, j);
    assert forall k :: j <= k < e ==> IsDigit(s[k]) by {
      forall k | j <= k < e ensures IsDigit(s[k]) { assert s[k] == s[j..e][k - j]; }
    }
    assert forall k :: j <= k < d ==> IsDigit(s[k]) by {
      forall k | j <= k < d ensures IsDigit(s[k]) { assert s[k] == s[j..d][k - j]; }
    }
  }

  /** With no match inside `pre`, the first match is the `lnbc` spelled by `q` right after it. */
  lemma FirstMatchAfter(pre: string, q: string, d: string, rest: string)
    requires forall i :: !MatchesAt(pre, i)
    requires SpellsLnbc(q)
    requires d != [] && AllDigits(d)
    ensures FindMatch(pre + q + d + rest, 0) == Some(|pre|)
  {
    var s := pre + q + d + rest;
    var p := |pre|;
    assert !IsDigit(q[0]) && !IsDigit(q[1]) && !IsDigit(q[2]) && !IsDigit(q[3]);
    forall j: nat | j < p ensures !MatchesAt(s, j) {
      if j + 5 <= p {
        assert s[j] == pre[j] && s[j + 1] == pre[j + 1] && s[j + 2] == pre[j + 2];
        assert s[j + 3] == pre[j + 3] && s[j + 4] == pre[j + 4];
        assert !MatchesAt(pre, j);
      } else {
        var k := j + 4 - p;
        assert k == 0 || k == 1 || k == 2 || k == 3;
        assert s[j + 4] == q[k];
      }
    }
    assert s[p] == q[0] && s[p + 1] == q[1] && s[p + 2] == q[2] && s[p + 3] == q[3] && s[p + 4] == d[0];
    assert MatchesAt(s, p);
  }

  /**
   * The parse reads the first `lnbc` in any casing, wherever it stands: after
   * a lead-in `pre` that holds no match of its own, a prefix `q` spelling
   * `lnbc`, a digit run `d` (leading zeros allowed, as `parseInt` reads them)
   * and a `rest` that does not extend the run, the amount is the value of
   * `d` converted by whatever multiplier letter `rest` starts with.
   */
  lemma ParseAmountAt(pre: string, q: string, d: string, rest: string)
    requires forall i :: !MatchesAt(pre, i)
    requires SpellsLnbc(q)
    requires d != [] && AllDigits(d)
    requires rest == [] || !IsDigit(rest[0])
    ensures ParseAmountFromBolt11(pre + q + d + rest) == SatsFor(DigitsValue(d), MultiplierAt(rest, 0))
  {
    var s := pre + q + d + rest;
    var p := |pre|;
    var e := p + 4 + |d|;
    FirstMatchAfter(pre, q, d, rest);
    assert s[p + 4..e] == d;
    if e < |s| {
      assert s[e] == rest[0];
    }
    DigitRunEndAt(s, p + 4, e);
    assert MultiplierAt(s, e) == MultiplierAt(rest, 0);
  }

  /**
   * Parsing an invoice written for `d` with a BOLT #11 multiplier gives
   * that amount in satoshis: milli ×100000, micro ×100, nano ÷10 and pico
   * ÷10000 rounded down, none ×100000000. Without a multiplier, what follows
   * must not extend the digit run or read as a lower-case multiplier.
   */
  lemma ParseEncodedAmount(pre: string, q: string, d: string, multiplier: string, rest: string)
    requires forall i :: !MatchesAt(pre, i)
    requires SpellsLnbc(q)
    requires d != [] && AllDigits(d)
    requires multiplier in ["", "m", "u", "n", "p"]
    requires multiplier == "" && rest != [] ==> !IsDigit(rest[0]) && rest[0] !in "munp"
    ensures var sats := ParseAmountFromBolt11(pre + q + d + multiplier + rest);
            var n := DigitsValue(d);
            && (multiplier == "m" ==> sats == n * 100000)
            && (multiplier == "u" ==> sats == n * 100)
            && (multiplier == "n" ==> sats == n / 10)
            && (multiplier == "p" ==> sats == n / 10000)
            && (multiplier == "" ==> sats == n * 100000000)
  {
    var t := multiplier + rest;
    assert pre + q + d + multiplier + rest == pre + q + d + t;
    ParseAmountAt(pre, q, d, t);
    var n := DigitsValue(d);
    if multiplier == "" {
      assert t == rest;
      assert SatsFor(n, MultiplierAt(t, 0)) == n * 100000000;
    } else {
      assert |multiplier| == 1 && t[0] == multiplier[0];
      assert MultiplierAt(t, 0) == multiplier;
    }
  }

  lemma AppendAssoc<T>(a: seq<T>, b: seq<T>, c: seq<T>)
    ensures a + b + c == a + (b + c)
  {
  }

  /** An upper-case multiplier letter ends the digit run and is captured as it is written. */
  lemma UpperMultiplierCaptured(letter: char, rest: string)
    requires letter in "MUNP"
    ensures !IsDigit(([letter] + rest)[0]) && MultiplierAt([letter] + rest, 0) == [letter]
    ensures [letter] !in ["m", "u", "n", "p"]
  {
    assert ([letter] + rest)[0] == letter;
  }

  /**
   * The switch is case-sensitive although the pattern is not: an upper-case
   * multiplier letter is captured but falls to the whole-bitcoin default, so
   * an all-upper-case invoice such as `LNBC2500U…` reads as 2500 bitcoin.
   */
  lemma UpperCaseMultiplierIsWholeBitcoin(pre: string, q: string, d: string, letter: char, rest: string)
    requires forall i :: !MatchesAt(pre, i)
    requires SpellsLnbc(q)
    requires d != [] && AllDigits(d)
    requires letter in "MUNP"
    ensures ParseAmountFromBolt11(pre + q + d + [letter] + rest) == DigitsValue(d) * 100000000
  {
    var t := [letter] + rest;
    AppendAssoc(pre + q + d, [letter], rest);
    UpperMultiplierCaptured(letter, rest);
    ParseAmountAt(pre, q, d, t);
    SatsForAtMostWholeBitcoin(DigitsValue(d), [letter]);
  }

  /** Worked values for the parser. */
  lemma ParseExampleMilli()
    ensures ParseAmountFromBolt11("lnbc100m") == 10000000
  {
    assert "lnbc100m" == "" + "lnbc" + "100" + "m" + "";
    assert DigitsValue("100") == 100 by {
      assert "100"[..2] == "10" && "10"[..1] == "1";
    }
    ParseEncodedAmount("", "lnbc", "100", "m", "");
  }

  lemma ParseExampleMicro()
    ensures ParseAmountFromBolt11("lnbc500u") == 50000
  {
    assert "lnbc500u" == "" + "lnbc" + "500" + "u" + "";
    assert DigitsValue("500") == 500 by {
      assert "500"[..2] == "50" && "50"[..1] == "5";
    }
    ParseEncodedAmount("", "lnbc", "500", "u", "");
  }

  lemma ParseExampleNano()
    ensures ParseAmountFromBolt11("lnbc1n") == 0
  {
    assert "lnbc1n" == "" + "lnbc" + "1" + "n" + "";
    ParseEncodedAmount("", "lnbc", "1", "n", "");
  }

  lemma ParseExampleWhole()
    ensures ParseAmountFromBolt11("lnbc2") == 200000000
  {
    assert "lnbc2" == "" + "lnbc" + "2" + "" + "";
    ParseEncodedAmount("", "lnbc", "2", "", "");
  }

  /** An all-upper-case invoice: the `U` is captured but not recognised, so 2500 reads as whole bitcoin. */
  lemma ParseExampleUpperCase()
    ensures ParseAmountFromBolt11("LNBC2500U1") == 250000000000
  {
    assert "LNBC2500U1" == "" + "LNBC" + "2500" + ['U'] + "1";
    assert DigitsValue("2500") == 2500 by {
      assert "2500"[..3] == "250" && "250"[..2] == "25" && "25"[..1] == "2";
    }
    UpperCaseMultiplierIsWholeBitcoin("", "LNBC", "2500", 'U', "1");
  }

  /** A match after other text, with a leading zero in its digit run. */
  lemma ParseExampleLeadIn()
    ensures ParseAmountFromBolt11("xlnbc05m") == 500000
  {
    assert "xlnbc05m" == "x" + "lnbc" + "05" + "m" + "";
    assert DigitsValue("05") == 5 by {
      assert "05"[..1] == "0";
    }
    ParseEncodedAmount("x", "lnbc", "05", "m", "");
  }

  /**
   * The greedy run also takes the digit `1` that separates the human-readable
   * part from the data part: a 20-bitcoin invoice `lnbc20` + `1` + data that
   * starts with `p` reads as 201 pico-bitcoin, which rounds to 0.
   */
  lemma ParseExampleSeparatorAsDigit()
    ensures ParseAmountFromBolt11("lnbc201pvj") == 0
  {
    assert "lnbc201pvj" == "" + "lnbc" + "201" + "p" + "vj";
    assert DigitsValue("201") == 201 by {
      assert "201"[..2] == "20" && "20"[..1] == "2";
    }
    ParseEncodedAmount("", "lnbc", "201", "p", "vj");
  }

  /**
   * An invoice without an amount whose data part starts with `p`, as every
   * data part written after 2004 does (its leading timestamp character): the
   * separator `1` and that `p` read as one pico-bitcoin, which rounds to 0.
   */
  lemma ParseExampleNoAmountTimestamped()
    ensures ParseAmountFromBolt11("lnbc1pvjluez") == 0
  {
    assert "lnbc1pvjluez" == "" + "lnbc" + "1" + "p" + "vjluez";
    ParseEncodedAmount("", "lnbc", "1", "p", "vjluez");
  }

  /**
   * An invoice without an amount whose data part starts with neither a digit
   * nor a multiplier letter (a timestamp before 2004): the separator `1`
   * alone reads as one whole bitcoin.
   */
  lemma ParseExampleNoAmount()
    ensures ParseAmountFromBolt11("lnbc1qq") == 100000000
  {
    assert "lnbc1qq" == "" + "lnbc" + "1" + "" + "qq";
    ParseEncodedAmount("", "lnbc", "1", "", "qq");
  }
}
