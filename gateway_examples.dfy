/**
 * Worked examples of the gateway's mock fallback: which of the two mock
 * products a query returns when the search service is down.
 */
module GatewayExamples {
  import opened Wrappers
  import opened Js
  import opened Gateway

  /** Filtering the two mock hits, one hit at a time. */
  lemma FilterMock(query: string)
    ensures Filter(MockHits, MatchesQuery(query)) ==
              (if HitMatches(MockHeadphones, query) then [MockHeadphones] else []) +
              (if HitMatches(MockWatch, query) then [MockWatch] else [])
  {
    var p := MatchesQuery(query);
    assert MockHits[1..] == [MockWatch];
    assert Filter([MockWatch], p) == (if p(MockWatch) then [MockWatch] else []) + Filter([], p);
  }

  lemma HeadphonesMatchHeadphones()
    ensures HitMatches(MockHeadphones, "headphones")
  {
    ContainsLowered(MockHeadphones.document.name, "headphones", 17);
  }

  lemma WatchNameMissesHeadphones()
    ensures !Contains(ToLower(MockWatch.document.name), "headphones")
  {
    NotContainsLowered(MockWatch.document.name, "headphones", 'e');
  }

  /** The watch's description has one `h`, in "smartphone", and it is not followed by `e`. */
  lemma WatchDescriptionMissesHeadphones()
    ensures !Contains(ToLower(MockWatch.document.description), "headphones")
  {
    NotContainsLoweredAround("Advanced fitness" + " tracking and ", "smartphone", " integration.", "headphones");
  }

  lemma WatchCategoryMissesHeadphones()
    ensures !Contains(ToLower(MockWatch.document.category), "headphones")
  {
    NotContainsLowered(MockWatch.document.category, "headphones", 'h');
  }

  /** `"headphones"` matches only the headphones (hit id 1), by name and description. */
  lemma FallbackHeadphones()
    ensures Fallback(Some("headphones")).hits == [MockHeadphones]
    ensures Fallback(Some("headphones")).hits[0].document.id == "1"
    ensures Fallback(Some("headphones")).found == 1
  {
    var q := "headphones";
    assert ToLower(q) == q;
    HeadphonesMatchHeadphones();
    WatchNameMissesHeadphones();
    WatchDescriptionMissesHeadphones();
    WatchCategoryMissesHeadphones();
    FilterMock(q);
  }

  /** Only the capital `E` of "Electronics" changes under lower-casing. */
  lemma LowerElectronics()
    ensures ToLower("Electronics") == "electronics"
  {
    var rest := "lectronics";
    assert "Electronics" == "E" + rest;
    ToLowerConcat("E", rest);
    ToLowerUnchanged(rest);
    assert ToLower("E") == "e";
  }

  lemma ElectronicsMatches()
    ensures HitMatches(MockHeadphones, "electronics") && HitMatches(MockWatch, "electronics")
  {
    LowerElectronics();
    ContainsSelf("electronics");
  }

  /** Any query that lower-cases to `"electronics"` matches both products, by category. */
  lemma FallbackElectronics(q: string)
    requires ToLower(q) == "electronics"
    ensures Fallback(Some(q)).hits == MockHits
    ensures Fallback(Some(q)).found == 2
  {
    assert |ToLower(q)| == 11;
    assert FiltersMock(Some(q));
    ElectronicsMatches();
    FilterMock("electronics");
  }

  /** The capitalised spelling, as a category facet shows it, is one such query. */
  lemma FallbackElectronicsCapitalised()
    ensures Fallback(Some("Electronics")).hits == MockHits
  {
    LowerElectronics();
    FallbackElectronics("Electronics");
  }

  lemma HeadphonesNameLacksZ()
    ensures FieldLacks(MockHeadphones.document.name, "xyz-no-match", 'z')
  {
    LetterAbsent(MockHeadphones.document.name, "Premium", " Wireless", " Headphones", 'z');
  }

  lemma HeadphonesCategoryLacksZ()
    ensures FieldLacks(MockHeadphones.document.category, "xyz-no-match", 'z')
  {
  }

  lemma HeadphonesDescriptionLacksZ()
    ensures FieldLacks(MockHeadphones.document.description, "xyz-no-match", 'z')
  {
    LetterAbsent(HeadphonesDescription, "High-quality wireless", " headphones with", " active noise cancellation.", 'z');
  }

  lemma WatchLacksZ()
    ensures FieldLacks(MockWatch.document.name, "xyz-no-match", 'z')
    ensures FieldLacks(MockWatch.document.category, "xyz-no-match", 'z')
  {
  }

  lemma WatchDescriptionLacksZ()
    ensures FieldLacks(MockWatch.document.description, "xyz-no-match", 'z')
  {
    LetterAbsent(WatchDescription, "Advanced fitness" + " tracking and ", "smartphone", " integration.", 'z');
  }

  lemma HeadphonesMissNoMatch()
    ensures !HitMatches(MockHeadphones, "xyz-no-match")
  {
    HeadphonesNameLacksZ();
    HeadphonesCategoryLacksZ();
    HeadphonesDescriptionLacksZ();
    HitMissesByLetters(MockHeadphones, "xyz-no-match", 'z', 'z', 'z');
  }

  lemma WatchMissesNoMatch()
    ensures !HitMatches(MockWatch, "xyz-no-match")
  {
    WatchLacksZ();
    WatchDescriptionLacksZ();
    HitMissesByLetters(MockWatch, "xyz-no-match", 'z', 'z', 'z');
  }

  /** A query matching nothing gives no hits and found = 0. */
  lemma FallbackNoMatch()
    ensures Fallback(Some("xyz-no-match")).hits == []
    ensures Fallback(Some("xyz-no-match")).found == 0
  {
    var q := "xyz-no-match";
    assert ToLower(q) == q;
    HeadphonesMissNoMatch();
    WatchMissesNoMatch();
    FilterMock(q);
  }
}
