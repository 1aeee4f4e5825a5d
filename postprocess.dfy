/** postprocess.py: the safety disclaimer put in front of every generated answer. */
module Postprocess {

  /** The fixed disclaimer text. */
  const Disclaimer: string := "_This is not medical advice. Consult a licensed clinician for diagnosis or treatment._"

  /** The disclaimer, a blank line, then the answer. */
  function AddDisclaimer(answer: string): (r: string)
    ensures |r| == |Disclaimer| + 2 + |answer|
    ensures r[..|Disclaimer|] == Disclaimer
    ensures r[|Disclaimer|..|Disclaimer| + 2] == "\n\n"
    ensures r[|Disclaimer| + 2..] == answer
  {
    Disclaimer + "\n\n" + answer
  }

  /** Dropping the fixed prefix gives the answer back. */
  function StripDisclaimer(s: string): string
    requires |s| >= |Disclaimer| + 2
  {
    s[|Disclaimer| + 2..]
  }

  lemma StripAfterAdd(answer: string)
    ensures StripDisclaimer(AddDisclaimer(answer)) == answer
  {
  }

  /** Different answers keep different texts once the disclaimer is added. */
  lemma AddDisclaimerInjective(a: string, b: string)
    ensures AddDisclaimer(a) == AddDisclaimer(b) ==> a == b
  {
    if AddDisclaimer(a) == AddDisclaimer(b) {
      StripAfterAdd(a);
      StripAfterAdd(b);
    }
  }

  /** Adding the disclaimer twice gives two disclaimers, not one. */
  lemma AddDisclaimerNotIdempotent(answer: string)
    ensures AddDisclaimer(AddDisclaimer(answer)) != AddDisclaimer(answer)
    ensures AddDisclaimer(AddDisclaimer(answer))[|Disclaimer| + 2..][..|Disclaimer|] == Disclaimer
  {
    var once := AddDisclaimer(answer);
    assert |AddDisclaimer(once)| > |once|;
  }
}
