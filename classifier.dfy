/** The status classifier (`parseStatusCode`) and the three boolean facets that
    the status poller derives from the raw STATUS payload. Both source files
    carry identical copies of this code. */
module Classifier {
  import opened Text

  /** Every label the classifier can produce besides a passed-through code. */
  const KNOWN_LABELS: set<string> := {
    "Ready", "Paused", "Error", "Pending Deletion", "Paper Jam",
    "Paper Out", "Manual Feed", "Paper Problem", "Offline"
  }

  /** The codes the switch names exactly. */
  const EXACT_CODES: set<string> := {"0", "Normal", "1", "2", "3", "4", "5", "6", "7", "8"}

  /** parseStatusCode: exact matches on the trimmed code, then the
      case-insensitive "paper" and "error" fallbacks, then the trimmed code. */
  function ParseStatusCode(code: string): (status: string)
    ensures status in KNOWN_LABELS || status == TrimSpace(code)
  {
    Classify(TrimSpace(code))
  }

  /** The switch of parseStatusCode, applied to the already trimmed code. */
  function Classify(c: string): (status: string)
    ensures status in KNOWN_LABELS || status == c
  {
    if c == "0" || c == "Normal" then "Ready"
    else if c == "1" then "Paused"
    else if c == "2" then "Error"
    else if c == "3" then "Pending Deletion"
    else if c == "4" then "Paper Jam"
    else if c == "5" then "Paper Out"
    else if c == "6" then "Manual Feed"
    else if c == "7" then "Paper Problem"
    else if c == "8" then "Offline"
    else if Contains(ToLower(c), "paper") then "Paper Problem"
    else if Contains(ToLower(c), "error") then "Error"
    else c
  }

  /** IsReady facet: the raw payload mentions "Normal" (case-sensitively) or
      is exactly "0"; the payload is not trimmed for this test. */
  predicate IsReadyFacet(payload: string) {
    Contains(payload, "Normal") || payload == "0"
  }

  /** HasPaper facet: the raw payload does not mention "paper" in any case. */
  predicate HasPaperFacet(payload: string) {
    !Contains(ToLower(payload), "paper")
  }

  /** HasError facet: the raw payload mentions "error" in any case. */
  predicate HasErrorFacet(payload: string) {
    Contains(ToLower(payload), "error")
  }

  /** The exact table: after trimming, "0" and "Normal" are Ready and "1" to
      "8" are, in order, Paused, Error, Pending Deletion, Paper Jam, Paper Out,
      Manual Feed, Paper Problem and Offline. */
  lemma ExactCodes(code: string)
    ensures TrimSpace(code) == "0" ==> ParseStatusCode(code) == "Ready"
    ensures TrimSpace(code) == "Normal" ==> ParseStatusCode(code) == "Ready"
    ensures TrimSpace(code) == "1" ==> ParseStatusCode(code) == "Paused"
    ensures TrimSpace(code) == "2" ==> ParseStatusCode(code) == "Error"
    ensures TrimSpace(code) == "3" ==> ParseStatusCode(code) == "Pending Deletion"
    ensures TrimSpace(code) == "4" ==> ParseStatusCode(code) == "Paper Jam"
    ensures TrimSpace(code) == "5" ==> ParseStatusCode(code) == "Paper Out"
    ensures TrimSpace(code) == "6" ==> ParseStatusCode(code) == "Manual Feed"
    ensures TrimSpace(code) == "7" ==> ParseStatusCode(code) == "Paper Problem"
    ensures TrimSpace(code) == "8" ==> ParseStatusCode(code) == "Offline"
  {
  }

  /** Any other code: "paper" (any case) wins over "error" (any case), and
      a code with neither comes back trimmed but otherwise unchanged. */
  lemma Fallbacks(code: string)
    requires TrimSpace(code) !in EXACT_CODES
    ensures Contains(ToLower(TrimSpace(code)), "paper") ==>
      ParseStatusCode(code) == "Paper Problem"
    ensures !Contains(ToLower(TrimSpace(code)), "paper") && Contains(ToLower(TrimSpace(code)), "error") ==>
      ParseStatusCode(code) == "Error"
    ensures !Contains(ToLower(TrimSpace(code)), "paper") && !Contains(ToLower(TrimSpace(code)), "error") ==>
      ParseStatusCode(code) == TrimSpace(code)
  {
    FallbacksOfTrimmed(TrimSpace(code));
  }

  lemma FallbacksOfTrimmed(c: string)
    requires c !in EXACT_CODES
    ensures Contains(ToLower(c), "paper") ==> Classify(c) == "Paper Problem"
    ensures !Contains(ToLower(c), "paper") && Contains(ToLower(c), "error") ==> Classify(c) == "Error"
    ensures !Contains(ToLower(c), "paper") && !Contains(ToLower(c), "error") ==> Classify(c) == c
  {
  }

  /** Surrounding white space never changes the label. */
  lemma TrimInvariant(code: string)
    ensures ParseStatusCode(TrimSpace(code)) == ParseStatusCode(code)
  {
    TrimSpaceIdempotent(code);
  }

  /** "PaperJam99" is not the exact code "4": the substring rule makes it a
      Paper Problem, not a Paper Jam. */
  lemma PaperJam99()
    ensures ParseStatusCode("PaperJam99") == "Paper Problem"
  {
    var c := "PaperJam99";
    TrimmedIsFixed(c);
    assert ToLower(c)[0..5] == "paper";
    assert OccursAt(ToLower(c), "paper", 0);
  }

  /** None of the exact codes mentions "paper" or "error" in any case. */
  lemma ExactCodesMentionNeither(c: string)
    requires c in EXACT_CODES
    ensures !Contains(ToLower(c), "paper") && !Contains(ToLower(c), "error")
  {
    if c == "Normal" {
      var l := ToLower(c);
      assert l == "normal";
      forall i | 0 <= i <= |l| - 5 ensures !OccursAt(l, "paper", i) && !OccursAt(l, "error", i) {
        assert l[i..i + 5][0] == l[i];
      }
    }
  }

  /** The facets and the label agree in one direction: a payload that reports
      missing paper is labelled Paper Problem, and one that reports an error is
      labelled Error or Paper Problem. */
  lemma FacetsImplyLabel(payload: string)
    ensures !HasPaperFacet(payload) ==> ParseStatusCode(payload) == "Paper Problem"
    ensures HasErrorFacet(payload) ==> ParseStatusCode(payload) in {"Error", "Paper Problem"}
  {
    var c := TrimSpace(payload);
    if !HasPaperFacet(payload) {
      ContainsLowerSurvivesTrim(payload, "paper");
      if c in EXACT_CODES {
        ExactCodesMentionNeither(c);
      }
    }
    if HasErrorFacet(payload) {
      ContainsLowerSurvivesTrim(payload, "error");
      if c in EXACT_CODES {
        ExactCodesMentionNeither(c);
      }
    }
  }

  /** The facets are not derived from the label, and the converse of
      FacetsImplyLabel fails: code "2" is labelled Error without the error
      facet, code "5" is labelled Paper Out with the paper facet still set,
      and " 0" is labelled Ready while the untrimmed readiness test fails. */
  lemma LabelDoesNotImplyFacets()
    ensures ParseStatusCode("2") == "Error" && !HasErrorFacet("2")
    ensures ParseStatusCode("5") == "Paper Out" && HasPaperFacet("5")
    ensures ParseStatusCode(" 0") == "Ready" && !IsReadyFacet(" 0")
  {
    CodeTwo();
    CodeFive();
    PaddedZero();
  }

  lemma CodeTwo()
    ensures ParseStatusCode("2") == "Error" && !HasErrorFacet("2")
  {
    Unpadded("2");
  }

  lemma CodeFive()
    ensures ParseStatusCode("5") == "Paper Out" && HasPaperFacet("5")
  {
    Unpadded("5");
  }

  lemma Unpadded(c: string)
    requires |c| == 1 && IsDigit(c[0])
    ensures ParseStatusCode(c) == Classify(c)
  {
    TrimmedIsFixed(c);
  }

  lemma PaddedZero()
    ensures ParseStatusCode(" 0") == "Ready" && !IsReadyFacet(" 0")
  {
    assert TrimLeft(" 0") == "0" by {
      assert " 0"[1..] == "0";
    }
    assert TrimRight("0") == "0";
  }

  /** A payload may set all three facets at once: "Normal paper error" is
      ready, out of paper and in error simultaneously. */
  lemma AllFacetsAtOnce()
    ensures IsReadyFacet("Normal paper error")
    ensures !HasPaperFacet("Normal paper error")
    ensures HasErrorFacet("Normal paper error")
  {
    var p := "Normal paper error";
    assert OccursAt(p, "Normal", 0);
    var l := ToLower(p);
    assert l[7..12] == "paper";
    assert OccursAt(l, "paper", 7);
    assert l[13..18] == "error";
    assert OccursAt(l, "error", 13);
  }
}
