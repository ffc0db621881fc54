/** The reply's weighted length and the truncation that keeps it under the billed post cap. */
module ReplyText {

  const REPLY_MAX_WEIGHTED_LEN := 280

  /** 1 for the four ranges the platform counts once, 2 for everything else. */
  function CharWeight(ch: char): nat {
    var code := ch as int;
    if code <= 0x10FF || 0x2000 <= code <= 0x200D || 0x2010 <= code <= 0x201F || 0x2032 <= code <= 0x2037 then 1 else 2
  }

  const WEIGHT_ONE_RANGES := {(0x0000, 0x10FF), (0x2000, 0x200D), (0x2010, 0x201F), (0x2032, 0x2037)}

  /** A character weighs one when some range of the table holds it, and two otherwise. */
  lemma WeighsByTable(ch: char)
    ensures CharWeight(ch) == if exists r :: r in WEIGHT_ONE_RANGES && r.0 <= ch as int <= r.1 then 1 else 2
  {
    var code := ch as int;
    assert forall r :: r in WEIGHT_ONE_RANGES ==>
             r == (0x0000, 0x10FF) || r == (0x2000, 0x200D) || r == (0x2010, 0x201F) || r == (0x2032, 0x2037);
    assert (0x0000, 0x10FF) in WEIGHT_ONE_RANGES && (0x2000, 0x200D) in WEIGHT_ONE_RANGES;
    assert (0x2010, 0x201F) in WEIGHT_ONE_RANGES && (0x2032, 0x2037) in WEIGHT_ONE_RANGES;
  }

  function Weight(text: string): nat {
    if text == "" then 0 else CharWeight(text[0]) + Weight(text[1..])
  }

  lemma {:induction false} WeightAdds(a: string, b: string)
    ensures Weight(a + b) == Weight(a) + Weight(b)
  {
    if a == "" {
      assert a + b == b;
    } else {
      WeightAdds(a[1..], b);
      assert (a + b)[0] == a[0] && (a + b)[1..] == a[1..] + b;
    }
  }

  /** `kept` is the longest prefix of `text` within the cap. */
  ghost predicate LongestFitting(text: string, kept: string) {
    && kept <= text && Weight(kept) <= REPLY_MAX_WEIGHTED_LEN
    && forall n :: |kept| < n <= |text| ==> Weight(text[..n]) > REPLY_MAX_WEIGHTED_LEN
  }

  /** Return a composed reply, truncated to the longest prefix within the cap if it outgrew it. */
  method WithinReplyCap(text: string) returns (kept: string)
    ensures LongestFitting(text, kept)
    ensures kept == text <==> Weight(text) <= REPLY_MAX_WEIGHTED_LEN
  {
    if Weight(text) <= REPLY_MAX_WEIGHTED_LEN {
      return text;
    }
    kept := "";
    var spent, i := 0, 0;
    while i < |text|
      invariant i <= |text| && kept == text[..i] && spent == Weight(kept) <= REPLY_MAX_WEIGHTED_LEN
    {
      spent := spent + CharWeight(text[i]);
      NextWeight(text, i);
      if spent > REPLY_MAX_WEIGHTED_LEN {
        PrefixesGrow(text, i + 1);
        break;
      }
      kept := kept + [text[i]];
      i := i + 1;
    }
    assert text[..|text|] == text;
  }

  lemma NextWeight(text: string, i: nat)
    requires i < |text|
    ensures text[..i + 1] == text[..i] + [text[i]]
    ensures Weight(text[..i + 1]) == Weight(text[..i]) + CharWeight(text[i])
  {
    WeightAdds(text[..i], [text[i]]);
  }

  lemma PrefixesGrow(text: string, n: nat)
    requires n <= |text|
    ensures forall m :: n <= m <= |text| ==> Weight(text[..m]) >= Weight(text[..n])
  {
    forall m | n <= m <= |text| ensures Weight(text[..m]) >= Weight(text[..n]) {
      assert text[..m] == text[..n] + text[n..m];
      WeightAdds(text[..n], text[n..m]);
    }
  }

  /** The cap's result is unique, leaves a fitting text alone, and is a fixed point of itself. */
  lemma LongestFittingUnique(text: string, kept: string, again: string)
    requires LongestFitting(text, kept)
    ensures LongestFitting(text, again) ==> again == kept
    ensures LongestFitting(kept, again) ==> again == kept
    ensures Weight(text) <= REPLY_MAX_WEIGHTED_LEN ==> kept == text
  {
    assert text[..|text|] == text && kept[..|kept|] == kept && text[..|kept|] == kept;
    if LongestFitting(text, again) {
      assert text[..|again|] == again;
    }
  }
}
