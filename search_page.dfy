/**
 * The server-rendered search page, app/search/server/page.tsx, without its
 * markup: how the URL's query parameters become a search request, how each
 * facet checkbox rewrites the `filter_by` expression into the link it
 * points to, and the result range, pagination and empty state.
 *
 * A filter expression is a list of clauses joined with `" && "`; the page
 * takes it apart with `split` and never parses a clause further.
 */
module SearchPage {
  import opened Wrappers
  import opened Js
  import Gateway
  import GatewayExamples

  /** The URL query of `/search/server`; each key may be absent. */
  datatype SearchParams = SearchParams(
    q: Option<string>,
    filter_by: Option<string>,
    sort_by: Option<string>,
    page: Option<string>)

  const DefaultSort := "_text_match:desc,rating:desc"
  const PerPage := 12
  const PageFacets := "category,brand,in_stock"
  const PageHighlights := "name,description"
  const Products := "products"

  // ---------------------------------------------------------------------
  // Request defaults
  // ---------------------------------------------------------------------

  /** The page's reading of its parameters; a `page` that is not a number (`NaN`) is None. */
  datatype PageState = PageState(query: string, filterBy: string, sortBy: string, page: Option<int>)

  function Normalize(p: SearchParams): (r: PageState)
    ensures StrTruthy(p.q) ==> r.query == p.q.value
    ensures !StrTruthy(p.q) ==> r.query == ""
    ensures StrTruthy(p.filter_by) ==> r.filterBy == p.filter_by.value
    ensures !StrTruthy(p.filter_by) ==> r.filterBy == ""
    ensures r.sortBy != ""
    ensures StrTruthy(p.sort_by) ==> r.sortBy == p.sort_by.value
    ensures !StrTruthy(p.sort_by) ==> r.sortBy == DefaultSort
    ensures StrTruthy(p.page) ==> r.page == ParseInt(p.page.value)
  {
    PageState(StrOr(p.q, ""), StrOr(p.filter_by, ""), StrOr(p.sort_by, DefaultSort),
              ParseInt(StrOr(p.page, "1")))
  }

  /** A missing or empty `page` is page 1; a page written by `toString` reads back as itself. */
  lemma NormalizePage(p: SearchParams, n: int)
    ensures !StrTruthy(p.page) ==> Normalize(p).page == Some(1)
    ensures Normalize(p.(page := Some(IntToString(n)))).page == Some(n)
  {
    if !StrTruthy(p.page) {
      assert Normalize(p).page == ParseInt("1");
      ParseIntOne();
    }
    var t := IntToString(n);
    assert |t| >= 1;
    assert Normalize(p.(page := Some(t))).page == ParseInt(t);
    ParseIntToString(n);
  }

  /** The parameters the page hands to `searchWithFallback`. */
  function Request(s: PageState): (r: Gateway.ServerSearchParams)
    ensures var sent := Gateway.BuildParameters(r);
      && sent.q == (if s.query != "" then s.query else Gateway.Wildcard)
      && sent.filter_by == Some(s.filterBy)
      && sent.sort_by == (if s.sortBy != "" then s.sortBy else DefaultSort)
      && Gateway.IntDefaulted(s.page, Gateway.DefaultPage, sent.page)
      && sent.per_page == PerPage
      && sent.facet_by == PageFacets
      && sent.highlight_fields == PageHighlights
  {
    Gateway.NoParams.(
      q := Some(if s.query != "" then s.query else Gateway.Wildcard),
      filter_by := Some(s.filterBy),
      sort_by := Some(s.sortBy),
      page := s.page,
      per_page := Some(PerPage),
      facet_by := Some(PageFacets),
      highlight_fields := Some(PageHighlights))
  }

  /**
   * What reaches the search service for a page URL: a missing query is
   * sent as `*`, a missing sort as relevance, a missing page as 1; twelve
   * hits per page, the page's facets and highlight fields.
   */
  lemma RequestSent(p: SearchParams)
    ensures var sent := Gateway.BuildParameters(Request(Normalize(p)));
      && sent.q == (if StrTruthy(p.q) then p.q.value else "*")
      && sent.sort_by == (if StrTruthy(p.sort_by) then p.sort_by.value else DefaultSort)
      && sent.filter_by == Some(if StrTruthy(p.filter_by) then p.filter_by.value else "")
      && sent.per_page == 12
      && sent.facet_by == "category,brand,in_stock"
      && sent.highlight_fields == "name,description"
      && (!StrTruthy(p.page) ==> sent.page == 1)
  {
    NormalizePage(p, 1);
  }

  // ---------------------------------------------------------------------
  // Facet toggle
  // ---------------------------------------------------------------------

  const ClauseSep := " && "

  /** `filter_by?.split(' && ') || []`: no parameter, no clauses; an empty one is one empty clause. */
  function Clauses(filterBy: Option<string>): (r: seq<string>)
    ensures filterBy.None? ==> r == []
    ensures filterBy.Some? ==> |r| >= 1 && Join(r, ClauseSep) == filterBy.value
    ensures filterBy == Some("") ==> r == [""]
  {
    if filterBy.None? then []
    else
      JoinSplit(filterBy.value, ClauseSep);
      Split(filterBy.value, ClauseSep)
  }

  function FieldPrefix(field: string): string {
    field + ":"
  }

  /** A clause about `field`. */
  predicate OnField(c: string, field: string) {
    StartsWith(c, FieldPrefix(field))
  }

  /** `find`: the index of the first clause about `field` at or after `from`. */
  function FindFrom(cs: seq<string>, field: string, from: nat): (r: Option<nat>)
    ensures r.Some? ==> from <= r.value < |cs| && OnField(cs[r.value], field)
    ensures r.Some? ==> forall k :: from <= k < r.value ==> !OnField(cs[k], field)
    ensures r.None? ==> forall k :: from <= k < |cs| ==> !OnField(cs[k], field)
    decreases |cs| - from
  {
    if from >= |cs| then None
    else if OnField(cs[from], field) then Some(from)
    else FindFrom(cs, field, from + 1)
  }

  function FindFieldClause(cs: seq<string>, field: string): Option<nat> {
    FindFrom(cs, field, 0)
  }

  /** A clause's text is part of the filter it was split from. */
  lemma ClauseInFilter(filter: string, k: nat, sub: string)
    requires k < |Clauses(Some(filter))|
    ensures Contains(Clauses(Some(filter))[k], sub) ==> Contains(filter, sub)
  {
    if Contains(Clauses(Some(filter))[k], sub) {
      JoinContains(Clauses(Some(filter)), ClauseSep, k);
      ContainsTrans(filter, Clauses(Some(filter))[k], sub);
    }
  }

  /** `isChecked`: the first clause about `field` contains `value` as a substring; so the filter does. */
  predicate IsChecked(filterBy: Option<string>, field: string, value: string)
    ensures IsChecked(filterBy, field, value) ==> filterBy.Some? && Contains(filterBy.value, value)
  {
    var cs := Clauses(filterBy);
    var i := FindFieldClause(cs, field);
    i.Some? && (ClauseInFilter(filterBy.value, i.value, value); Contains(cs[i.value], value))
  }

  /** The condition of `isChecked`, stated outright, in both directions. */
  lemma CheckedIff(filterBy: Option<string>, field: string, value: string)
    ensures var cs := Clauses(filterBy);
      IsChecked(filterBy, field, value) <==>
        exists i :: 0 <= i < |cs| && OnField(cs[i], field)
          && (forall k :: 0 <= k < i ==> !OnField(cs[k], field))
          && Contains(cs[i], value)
    ensures var cs := Clauses(filterBy);
      (forall k :: 0 <= k < |cs| ==> !OnField(cs[k], field)) ==> !IsChecked(filterBy, field, value)
  {
    var cs := Clauses(filterBy);
    var f := FindFieldClause(cs, field);
    if f.Some? {
      forall i | 0 <= i < |cs| && OnField(cs[i], field) && (forall k :: 0 <= k < i ==> !OnField(cs[k], field))
        ensures i == f.value
      {
      }
    }
  }

  function NotOnField(field: string): string -> bool {
    c => !OnField(c, field)
  }

  /** `otherFilters`: the clauses not about `field`, in order. */
  function OtherClauses(cs: seq<string>, field: string): (r: seq<string>)
    ensures forall i :: 0 <= i < |r| ==> r[i] in cs && !OnField(r[i], field)
    ensures forall i :: 0 <= i < |cs| && !OnField(cs[i], field) ==> cs[i] in r
  {
    Filter(cs, NotOnField(field))
  }

  /** The clause a checkbox adds, by field. */
  function NewClause(field: string, value: string): (r: string)
    ensures OnField(r, field) && Contains(r, value)
  {
    if field == "in_stock" then
      ExactClause(field, value);
      field + ":=" + value
    else if field == "price" || field == "rating" then
      RangeClause(field, value);
      field + ":[" + value + ".." + value + "]"
    else
      ListClause(field, value);
      field + ":[`" + value + "`]"
  }

  lemma ExactClause(field: string, value: string)
    ensures OnField(field + ":=" + value, field) && Contains(field + ":=" + value, value)
  {
    ContainsInfix(FieldPrefix(field) + "=", value, "");
    assert FieldPrefix(field) + "=" + value + "" == field + ":=" + value;
  }

  lemma RangeClause(field: string, value: string)
    ensures var c := field + ":[" + value + ".." + value + "]";
      OnField(c, field) && Contains(c, value)
  {
    ContainsInfix(FieldPrefix(field) + "[", value, ".." + value + "]");
    assert FieldPrefix(field) + "[" + value + (".." + value + "]") == field + ":[" + value + ".." + value + "]";
  }

  lemma ListClause(field: string, value: string)
    ensures OnField(field + ":[`" + value + "`]", field) && Contains(field + ":[`" + value + "`]", value)
  {
    ContainsInfix(FieldPrefix(field) + "[`", value, "`]");
    assert FieldPrefix(field) + "[`" + value + "`]" == field + ":[`" + value + "`]";
  }

  /** The three clause shapes, on facet values the page shows. */
  lemma NewClauseShapes()
    ensures NewClause("in_stock", "true") == "in_stock:=true"
    ensures NewClause("price", "50") == "price:[50..50]"
    ensures NewClause("category", "Electronics") == "category:[`Electronics`]"
  {
    assert "in_stock" + ":=" + "true" == "in_stock:=true";
    assert "price" != "in_stock";
    assert "price" + ":[" + "50" + ".." + "50" + "]" == "price:[50..50]";
    assert "category" != "in_stock" && "category" != "price" && "category" != "rating";
    assert "category" + ":[`" + "Electronics" + "`]" == "category:[`Electronics`]";
  }

  /** `otherFilters` after the optional `push`. */
  function ToggledClauses(filterBy: Option<string>, field: string, value: string): (t: seq<string>)
    ensures forall i :: 0 <= i < |t| - 1 ==> !OnField(t[i], field)
    ensures |t| > 0 ==> (OnField(t[|t| - 1], field) <==> !IsChecked(filterBy, field, value))
    ensures |t| == |OtherClauses(Clauses(filterBy), field)| + (if IsChecked(filterBy, field, value) then 0 else 1)
  {
    var others := OtherClauses(Clauses(filterBy), field);
    if IsChecked(filterBy, field, value) then others else others + [NewClause(field, value)]
  }

  /** `newFilterBy`: the filter expression the checkbox for `field: value` links to. */
  function Toggle(filterBy: Option<string>, field: string, value: string): (r: string)
    ensures forall i :: 0 <= i < |OtherClauses(Clauses(filterBy), field)| ==>
              Contains(r, OtherClauses(Clauses(filterBy), field)[i])
    ensures !IsChecked(filterBy, field, value) ==> Contains(r, NewClause(field, value))
  {
    var t := ToggledClauses(filterBy, field, value);
    JoinContainsAll(t, ClauseSep);
    assert t[..|OtherClauses(Clauses(filterBy), field)|] == OtherClauses(Clauses(filterBy), field);
    Join(t, ClauseSep)
  }

  /**
   * What a toggle does to the clauses: those not about `field` are kept,
   * in order; every clause about `field` is dropped; an unchecked value
   * adds exactly one clause, last.
   */
  lemma ToggleClauses(filterBy: Option<string>, field: string, value: string)
    ensures var cs, t := Clauses(filterBy), ToggledClauses(filterBy, field, value);
      && t[..|OtherClauses(cs, field)|] == OtherClauses(cs, field)
      && (forall i :: 0 <= i < |cs| && !OnField(cs[i], field) ==> cs[i] in t)
      && (IsChecked(filterBy, field, value) ==> forall i :: 0 <= i < |t| ==> !OnField(t[i], field))
      && (!IsChecked(filterBy, field, value) ==>
            |t| == |OtherClauses(cs, field)| + 1 && t[|t| - 1] == NewClause(field, value)
            && forall i :: 0 <= i < |t| - 1 ==> !OnField(t[i], field))
  {
  }

  /** Unchecking leaves the other clauses joined, `""` when none remain. */
  lemma ToggleChecked(filterBy: Option<string>, field: string, value: string)
    requires IsChecked(filterBy, field, value)
    ensures Toggle(filterBy, field, value) == Join(OtherClauses(Clauses(filterBy), field), ClauseSep)
    ensures OtherClauses(Clauses(filterBy), field) == [] ==> Toggle(filterBy, field, value) == ""
  {
  }

  /** The kept clauses are chosen clause by clause: filtering a split list is filtering each part. */
  lemma OtherClausesConcat(a: seq<string>, b: seq<string>, field: string)
    ensures OtherClauses(a + b, field) == OtherClauses(a, field) + OtherClauses(b, field)
  {
    FilterConcat(a, b, NotOnField(field));
  }

  /** A filter with nothing about `field` is kept whole. */
  lemma OtherClausesUnrelated(cs: seq<string>, field: string)
    requires forall i :: 0 <= i < |cs| ==> !OnField(cs[i], field)
    ensures OtherClauses(cs, field) == cs
  {
    FilterAll(cs, NotOnField(field));
  }

  /** A present but empty `filter_by` is one empty clause, so adding a clause leaves a leading separator. */
  lemma ToggleEmptyFilter(field: string, value: string)
    ensures !IsChecked(Some(""), field, value)
    ensures Toggle(Some(""), field, value) == " && " + NewClause(field, value)
  {
    var cs := Clauses(Some(""));
    assert !OnField(cs[0], field);
    assert OtherClauses(cs, field) == [""] by {
      OtherClausesUnrelated(cs, field);
    }
    var t := ToggledClauses(Some(""), field, value);
    assert t == [""] + [NewClause(field, value)];
    JoinCons("", [NewClause(field, value)], ClauseSep);
  }

  /** A missing `filter_by` gets exactly the new clause. */
  lemma ToggleNoFilter(field: string, value: string)
    ensures !IsChecked(None, field, value)
    ensures Toggle(None, field, value) == NewClause(field, value)
  {
    assert ToggledClauses(None, field, value) == [NewClause(field, value)];
  }

  /** `filter_by` reads back as the clauses it was joined from: its last clause can stand before a separator. */
  predicate Reparsable(filterBy: Option<string>) {
    var cs := Clauses(filterBy);
    cs == [] || Delimitable(cs[|cs| - 1], ClauseSep)
  }

  /** No character of a clause's fixed punctuation occurs in the separator. */
  lemma PunctuationOutsideSep(m: string)
    requires m in [":=", ":[", "..", "]", ":[`", "`]"]
    ensures forall k :: 0 <= k < |m| ==> m[k] !in ClauseSep
  {
  }

  /** A new clause built from separator-free parts is separator-free. */
  lemma NewClauseNoSep(field: string, value: string)
    requires NoSep(field, ClauseSep) && NoSep(value, ClauseSep)
    ensures NoSep(NewClause(field, value), ClauseSep)
  {
    assert NoSep("", ClauseSep);
    if field == "in_stock" {
      PunctuationOutsideSep(":=");
      NoSepGlue(field, ":=", value, ClauseSep);
    } else if field == "price" || field == "rating" {
      PunctuationOutsideSep(":[");
      PunctuationOutsideSep("..");
      PunctuationOutsideSep("]");
      NoSepGlue(field, ":[", value, ClauseSep);
      NoSepGlue(field + ":[" + value, "..", value, ClauseSep);
      NoSepGlue(field + ":[" + value + ".." + value, "]", "", ClauseSep);
      assert field + ":[" + value + ".." + value + "]" + "" == NewClause(field, value);
    } else {
      PunctuationOutsideSep(":[`");
      PunctuationOutsideSep("`]");
      NoSepGlue(field, ":[`", value, ClauseSep);
      NoSepGlue(field + ":[`" + value, "`]", "", ClauseSep);
      assert field + ":[`" + value + "`]" + "" == NewClause(field, value);
    }
  }

  /** Every clause kept from a reparsable filter can stand before a separator. */
  lemma OtherClausesDelimitable(filterBy: Option<string>, field: string)
    requires Reparsable(filterBy)
    ensures var o := OtherClauses(Clauses(filterBy), field);
      forall i :: 0 <= i < |o| ==> Delimitable(o[i], ClauseSep)
  {
    var cs := Clauses(filterBy);
    if filterBy.Some? {
      SplitPieces(filterBy.value, ClauseSep);
      assert forall k :: 0 <= k < |cs| ==> Delimitable(cs[k], ClauseSep) by {
        forall k | 0 <= k < |cs|
          ensures Delimitable(cs[k], ClauseSep)
        {
          if k == |cs| - 1 {
            assert Reparsable(filterBy);
          }
        }
      }
    }
    KeptDelimitable(cs, field);
  }

  /** Keeping some of a list of clauses that can each stand before a separator keeps that property. */
  lemma KeptDelimitable(cs: seq<string>, field: string)
    requires forall k :: 0 <= k < |cs| ==> Delimitable(cs[k], ClauseSep)
    ensures var o := OtherClauses(cs, field);
      forall i :: 0 <= i < |o| ==> Delimitable(o[i], ClauseSep)
  {
    var o := OtherClauses(cs, field);
    forall i | 0 <= i < |o|
      ensures Delimitable(o[i], ClauseSep)
    {
      assert o[i] in cs;
    }
  }

  /**
   * Checking a value that was unchecked and reading the link's filter
   * back gives the kept clauses followed by the new one.
   */
  lemma ToggleReadsBack(filterBy: Option<string>, field: string, value: string)
    requires !IsChecked(filterBy, field, value) && Reparsable(filterBy)
    requires NoSep(field, ClauseSep) && NoSep(value, ClauseSep)
    ensures Clauses(Some(Toggle(filterBy, field, value))) ==
              OtherClauses(Clauses(filterBy), field) + [NewClause(field, value)]
  {
    var o := OtherClauses(Clauses(filterBy), field);
    var t := o + [NewClause(field, value)];
    OtherClausesDelimitable(filterBy, field);
    NewClauseNoSep(field, value);
    assert SplitShaped(t, ClauseSep) by {
      forall k | 0 <= k < |t| - 1
        ensures Delimitable(t[k], ClauseSep)
      {
        assert t[k] == o[k];
      }
    }
    SplitJoin(t, ClauseSep);
  }

  /**
   * Checking an unchecked value and then clicking the same checkbox again
   * leaves exactly the original's clauses about other fields.
   */
  lemma ToggleTwice(filterBy: Option<string>, field: string, value: string)
    requires !IsChecked(filterBy, field, value) && Reparsable(filterBy)
    requires NoSep(field, ClauseSep) && NoSep(value, ClauseSep)
    ensures IsChecked(Some(Toggle(filterBy, field, value)), field, value)
    ensures Toggle(Some(Toggle(filterBy, field, value)), field, value) ==
              Join(OtherClauses(Clauses(filterBy), field), ClauseSep)
  {
    var o := OtherClauses(Clauses(filterBy), field);
    ToggleReadsBack(filterBy, field, value);
    ToggleLastClause(Some(Toggle(filterBy, field, value)), o, NewClause(field, value), field, value);
  }

  /** A filter whose only clause about `field` is the last, and contains `value`, has `value` checked. */
  lemma LastClauseChecked(f: Option<string>, o: seq<string>, n: string, field: string, value: string)
    requires Clauses(f) == o + [n]
    requires forall k :: 0 <= k < |o| ==> !OnField(o[k], field)
    requires OnField(n, field) && Contains(n, value)
    ensures IsChecked(f, field, value)
  {
    var cs := Clauses(f);
    assert forall k :: 0 <= k < |o| ==> !OnField(cs[k], field);
    assert cs[|o|] == n;
    assert FindFieldClause(cs, field) == Some(|o|);
  }

  /** Unchecking such a filter drops its last clause. */
  lemma ToggleLastClause(f: Option<string>, o: seq<string>, n: string, field: string, value: string)
    requires Clauses(f) == o + [n]
    requires forall k :: 0 <= k < |o| ==> !OnField(o[k], field)
    requires OnField(n, field) && Contains(n, value)
    ensures IsChecked(f, field, value)
    ensures Toggle(f, field, value) == Join(o, ClauseSep)
  {
    LastClauseChecked(f, o, n, field, value);
    OtherClausesConcat(o, [n], field);
    OtherClausesUnrelated(o, field);
    assert OtherClauses([n], field) == [];
    assert OtherClauses(o + [n], field) == o;
    ToggleChecked(f, field, value);
  }

  /** The filter `a &&` is one clause, not about `c`, that cannot stand before a separator. */
  lemma FusedFilterClauses()
    ensures Clauses(Some("a &&")) == ["a &&"]
    ensures !OnField("a &&", "c")
    ensures !Delimitable("a &&", ClauseSep)
  {
    var f := "a &&";
    assert !OccursAt(f, ClauseSep, 0);
    assert IndexOf(f, ClauseSep).None?;
    assert FieldPrefix("c") == "c:";
    assert f[..2][0] == 'a';
    assert OccursAt(f + ClauseSep, ClauseSep, 1);
    IndexOfIsFirst(f + ClauseSep, ClauseSep, 1);
  }

  /** The clause the page builds for the value `1` of a field `c`. */
  lemma ClauseForC()
    ensures NewClause("c", "1") == "c:[`1`]"
  {
    assert |"c"| != |"in_stock"| && |"c"| != |"price"| && |"c"| != |"rating"|;
  }

  /** Checking `c: 1` on the filter `a &&` appends the new clause after a separator. */
  lemma FusedFilterToggle()
    ensures !IsChecked(Some("a &&"), "c", "1")
    ensures Toggle(Some("a &&"), "c", "1") == "a &&" + ClauseSep + "c:[`1`]"
  {
    var f := "a &&";
    FusedFilterClauses();
    CheckedIff(Some(f), "c", "1");
    assert !IsChecked(Some(f), "c", "1");
    ClauseForC();
    var n := "c:[`1`]";
    OtherClausesUnrelated([f], "c");
    assert ToggledClauses(Some(f), "c", "1") == [f] + [n];
    JoinCons(f, [n], ClauseSep);
  }

  /** The fused filter splits at the first separator, inside what was meant as `a &&`. */
  lemma FusedFilterSplit()
    ensures Clauses(Some("a &&" + ClauseSep + "c:[`1`]")) == ["a", "&& c:[`1`]"]
  {
    var rest := "&& c:[`1`]";
    var t := "a &&" + ClauseSep + "c:[`1`]";
    assert t == "a" + ClauseSep + rest by {
      assert |t| == |"a" + ClauseSep + rest|;
      forall k | 0 <= k < |t| ensures t[k] == ("a" + ClauseSep + rest)[k] {}
    }
    assert t[1..5] == ClauseSep;
    assert t[0..4][0] == 'a';
    IndexOfIsFirst(t, ClauseSep, 1);
    assert t[5..] == rest;
    forall j | 0 <= j
      ensures !OccursAt(rest, ClauseSep, j)
    {
      if j + 4 <= |rest| {
        assert rest[j..j + 4][0] == rest[j];
        assert rest[j..j + 4][1] == rest[j + 1];
      }
    }
    assert Split(rest, ClauseSep) == [rest];
  }

  /**
   * The precondition of `ToggleTwice` is needed: a last clause ending in
   * `" &&"` fuses with the separator after it, so after checking a box on the
   * filter `a &&` the box still reads as unchecked.
   */
  lemma ToggleTwiceNeedsReparsable()
    ensures !Reparsable(Some("a &&"))
    ensures !IsChecked(Some("a &&"), "c", "1")
    ensures !IsChecked(Some(Toggle(Some("a &&"), "c", "1")), "c", "1")
  {
    FusedFilterClauses();
    FusedFilterToggle();
    FusedFilterSplit();
    var rest := "&& c:[`1`]";
    assert FieldPrefix("c") == "c:";
    assert rest[..2][0] == '&';
    assert !OnField("a", "c") && !OnField(rest, "c");
    CheckedIff(Some("a &&" + ClauseSep + "c:[`1`]"), "c", "1");
  }

  /** The check is a substring test: `Tech` counts as checked in the `AudioTech` brand clause, so clicking it removes that clause. */
  lemma SubstringCountsAsChecked()
    ensures IsChecked(Some("brand:[`AudioTech`]"), "brand", "Tech")
    ensures Toggle(Some("brand:[`AudioTech`]"), "brand", "Tech") == ""
  {
    var s := "brand:[`AudioTech`]";
    AudioTechClause();
    assert [s] == [] + [s];
    ToggleLastClause(Some(s), [], s, "brand", "Tech");
  }

  /** The `AudioTech` filter is one clause, about `brand`, containing `Tech`. */
  lemma AudioTechClause()
    ensures Clauses(Some("brand:[`AudioTech`]")) == ["brand:[`AudioTech`]"]
    ensures OnField("brand:[`AudioTech`]", "brand")
    ensures Contains("brand:[`AudioTech`]", "Tech")
  {
    var s := "brand:[`AudioTech`]";
    NoSpaceNoSep(s);
    assert FieldPrefix("brand") == "brand:" && s[..6] == "brand:";
    assert s == "brand:[`Audio" + "Tech" + "`]";
    ContainsInfix("brand:[`Audio", "Tech", "`]");
  }

  /** A clause without a space has no separator in it. */
  lemma NoSpaceNoSep(s: string)
    requires ' ' !in s
    ensures NoSep(s, ClauseSep)
  {
    forall j
      ensures !OccursAt(s, ClauseSep, j)
    {
      if 0 <= j && j + |ClauseSep| <= |s| {
        assert s[j] in s;
        assert s[j..j + |ClauseSep|][0] == s[j];
      }
    }
  }

  // ---------------------------------------------------------------------
  // Links
  // ---------------------------------------------------------------------

  /** A URL query string as ordered key-value pairs, before percent-encoding. */
  type QueryString = seq<(string, string)>

  /** `URLSearchParams.get`: the value of the first pair with this key. */
  function Lookup(qs: QueryString, key: string): (r: Option<string>)
    ensures r.Some? <==> exists i :: 0 <= i < |qs| && qs[i].0 == key
  {
    if qs == [] then None
    else if qs[0].0 == key then Some(qs[0].1)
    else Lookup(qs[1..], key)
  }

  /** The parameters the page sees when a link is followed. */
  function FromQuery(qs: QueryString): SearchParams {
    SearchParams(Lookup(qs, "q"), Lookup(qs, "filter_by"), Lookup(qs, "sort_by"), Lookup(qs, "page"))
  }

  lemma LookupHead(k: string, v: string, rest: QueryString)
    ensures Lookup([(k, v)] + rest, k) == Some(v)
  {
  }

  lemma LookupTail(k: string, v: string, rest: QueryString, key: string)
    requires k != key
    ensures Lookup([(k, v)] + rest, key) == Lookup(rest, key)
  {
    assert ([(k, v)] + rest)[1..] == rest;
  }

  /** The link a checkbox or "Clear all" writes: query, sort, then the optional page and filter. */
  function LinkQuery(q: string, sortBy: string, page: Option<string>, filterBy: Option<string>): QueryString {
    [("q", q), ("sort_by", sortBy)]
    + (if page.Some? then [("page", page.value)] else [])
    + (if filterBy.Some? then [("filter_by", filterBy.value)] else [])
  }

  /** Each parameter written into a link is read back from it. */
  lemma LinkQueryFollowed(q: string, sortBy: string, page: Option<string>, filterBy: Option<string>)
    ensures FromQuery(LinkQuery(q, sortBy, page, filterBy)) == SearchParams(Some(q), filterBy, Some(sortBy), page)
  {
    var f := if filterBy.Some? then [("filter_by", filterBy.value)] else [];
    var pf := (if page.Some? then [("page", page.value)] else []) + f;
    var qs := [("q", q)] + ([("sort_by", sortBy)] + pf);
    assert LinkQuery(q, sortBy, page, filterBy) == qs;
    LookupHead("q", q, [("sort_by", sortBy)] + pf);
    LookupTail("q", q, [("sort_by", sortBy)] + pf, "sort_by");
    LookupHead("sort_by", sortBy, pf);
    LookupTail("q", q, [("sort_by", sortBy)] + pf, "page");
    LookupTail("sort_by", sortBy, pf, "page");
    LookupTail("q", q, [("sort_by", sortBy)] + pf, "filter_by");
    LookupTail("sort_by", sortBy, pf, "filter_by");
    if page.Some? {
      LookupHead("page", page.value, f);
      LookupTail("page", page.value, f, "filter_by");
    }
    if filterBy.Some? {
      LookupHead("filter_by", filterBy.value, []);
    }
  }

  /** The link of one facet checkbox: query and sort carried over, page reset to 1, the new filter only when non-empty. */
  function ToggleLink(p: SearchParams, field: string, value: string): (r: QueryString)
    ensures FromQuery(r).page == Some("1")
    ensures FromQuery(r).q == Some(StrOr(p.q, "")) && FromQuery(r).sort_by == Some(StrOr(p.sort_by, DefaultSort))
    ensures FromQuery(r).filter_by == (if Toggle(p.filter_by, field, value) == "" then None
                                       else Some(Toggle(p.filter_by, field, value)))
  {
    var newFilter := Toggle(p.filter_by, field, value);
    LinkQueryFollowed(StrOr(p.q, ""), StrOr(p.sort_by, DefaultSort), Some("1"),
                      if newFilter != "" then Some(newFilter) else None);
    LinkQuery(StrOr(p.q, ""), StrOr(p.sort_by, DefaultSort), Some("1"),
              if newFilter != "" then Some(newFilter) else None)
  }

  /** Following a checkbox link: same query and sort, page 1, and the toggled filter. */
  lemma ToggleLinkFollowed(p: SearchParams, field: string, value: string)
    ensures var next := FromQuery(ToggleLink(p, field, value));
      && next.page == Some("1")
      && next.q == Some(StrOr(p.q, ""))
      && next.sort_by == Some(StrOr(p.sort_by, DefaultSort))
      && next.filter_by == (if Toggle(p.filter_by, field, value) == "" then None
                            else Some(Toggle(p.filter_by, field, value)))
    ensures var s, s2 := Normalize(p), Normalize(FromQuery(ToggleLink(p, field, value)));
      && s2.query == s.query && s2.sortBy == s.sortBy && s2.page == Some(1)
      && s2.filterBy == Toggle(p.filter_by, field, value)
  {
    var newFilter := Toggle(p.filter_by, field, value);
    var next := FromQuery(ToggleLink(p, field, value));
    LinkQueryFollowed(StrOr(p.q, ""), StrOr(p.sort_by, DefaultSort), Some("1"),
                      if newFilter != "" then Some(newFilter) else None);
    NormalizePage(next, 1);
    assert IntToString(1) == "1";
    assert next == next.(page := Some(IntToString(1)));
  }

  /** The "Clear all" link, shown only while a filter is set: query and sort, no filter, no page. */
  function ClearAllLink(p: SearchParams): (r: Option<QueryString>)
    ensures r.Some? <==> StrTruthy(p.filter_by)
  {
    if StrTruthy(p.filter_by) then Some(LinkQuery(StrOr(p.q, ""), StrOr(p.sort_by, DefaultSort), None, None))
    else None
  }

  /** Clearing keeps the query and sort and returns to page 1 with no filter. */
  lemma ClearAllFollowed(p: SearchParams)
    requires StrTruthy(p.filter_by)
    ensures var s, s2 := Normalize(p), Normalize(FromQuery(ClearAllLink(p).value));
      s2.query == s.query && s2.sortBy == s.sortBy && s2.filterBy == "" && s2.page == Some(1)
  {
    LinkQueryFollowed(StrOr(p.q, ""), StrOr(p.sort_by, DefaultSort), None, None);
    NormalizePage(FromQuery(ClearAllLink(p).value), 1);
  }

  /** The four sort buttons. */
  const SortOptions := [DefaultSort, "price:asc", "price:desc", "rating:desc"]

  /** A sort button's link: all current parameters, page included, with `sort_by` replaced. */
  function SortLink(p: SearchParams, sortBy: string): (r: SearchParams)
    ensures r.sort_by == Some(sortBy)
    ensures r.q == p.q && r.filter_by == p.filter_by && r.page == p.page
  {
    p.(sort_by := Some(sortBy))
  }

  /** A sort button is highlighted when it is the current sort; relevance also when none is set. */
  predicate SortActive(p: SearchParams, sortBy: string)
    ensures sortBy != "" ==> (SortActive(p, sortBy) <==> Normalize(p).sortBy == sortBy)
  {
    p.sort_by == Some(sortBy) || (sortBy == DefaultSort && !StrTruthy(p.sort_by))
  }

  /** A non-empty sort link changes the page's reading of the sort and nothing else. */
  lemma SortLinkNormalized(p: SearchParams, sortBy: string)
    requires sortBy != ""
    ensures Normalize(SortLink(p, sortBy)).sortBy == sortBy
    ensures Normalize(SortLink(p, sortBy)).(sortBy := Normalize(p).sortBy) == Normalize(p)
  {
    var q := SortLink(p, sortBy);
    assert q.q == p.q && q.filter_by == p.filter_by && q.page == p.page;
  }

  /** A sort button's link highlights that button and no other. */
  lemma SortLinkActivates(p: SearchParams, i: nat)
    requires i < |SortOptions|
    ensures SortActive(SortLink(p, SortOptions[i]), SortOptions[i])
    ensures forall j :: 0 <= j < |SortOptions| && j != i ==> !SortActive(SortLink(p, SortOptions[i]), SortOptions[j])
  {
    var q := SortLink(p, SortOptions[i]);
    SortOptionsNonEmpty(i);
    forall j | 0 <= j < |SortOptions| && j != i
      ensures !SortActive(q, SortOptions[j])
    {
      SortOptionsNonEmpty(j);
      assert |SortOptions[j]| != |SortOptions[i]|;
    }
  }

  /** Following a sort button makes it the active sort and the sort sent; nothing else changes, not even the page. */
  lemma SortLinkFollowed(p: SearchParams, i: nat)
    requires i < |SortOptions|
    ensures SortActive(SortLink(p, SortOptions[i]), SortOptions[i])
    ensures forall j :: 0 <= j < |SortOptions| && j != i ==> !SortActive(SortLink(p, SortOptions[i]), SortOptions[j])
    ensures Normalize(SortLink(p, SortOptions[i])).sortBy == SortOptions[i]
    ensures Normalize(SortLink(p, SortOptions[i])).(sortBy := Normalize(p).sortBy) == Normalize(p)
  {
    SortLinkActivates(p, i);
    SortOptionsNonEmpty(i);
    SortLinkNormalized(p, SortOptions[i]);
  }

  /** No sort button has an empty sort. */
  lemma SortOptionsNonEmpty(i: nat)
    requires i < |SortOptions|
    ensures SortOptions[i] != ""
  {
    assert |SortOptions[i]| >= |"price:asc"|;
  }

  /** A sort button is highlighted exactly when its sort is the one sent. */
  lemma ActiveSortIsSent(p: SearchParams, i: nat)
    requires i < |SortOptions|
    ensures SortActive(p, SortOptions[i]) <==> Normalize(p).sortBy == SortOptions[i]
  {
    var o := SortOptions[i];
    SortOptionsNonEmpty(i);
    if StrTruthy(p.sort_by) {
      assert Normalize(p).sortBy == p.sort_by.value;
    } else {
      assert Normalize(p).sortBy == DefaultSort;
      assert p.sort_by != Some(o);
    }
  }

  // ---------------------------------------------------------------------
  // Result range and pagination
  // ---------------------------------------------------------------------

  /** The "Showing first-last" range of a page; no range when the page is not a number. */
  function Range(page: Option<int>, found: int): (r: Option<(int, int)>)
    ensures r.Some? <==> page.Some?
  {
    if page.None? then None
    else Some(((page.value - 1) * PerPage + 1, Min(page.value * PerPage, found)))
  }

  function Min(a: int, b: int): int {
    if a <= b then a else b
  }

  /**
   * On a page that has results the range is inclusive, inside 1..found and
   * at most twelve wide; past the last page it is empty (first > last).
   */
  lemma RangeBounds(page: int, found: int)
    requires page >= 1
    ensures var (first, last) := Range(Some(page), found).value;
      && first == (page - 1) * 12 + 1 && last == Min(page * 12, found)
      && ((page - 1) * 12 < found ==>
            1 <= first <= last <= found && last - first + 1 == Min(12, found - (page - 1) * 12))
      && ((page - 1) * 12 >= found ==> last < first)
  {
  }

  /** The pagination bar: each neighbour link carries all current parameters with `page` replaced. */
  datatype Nav = Nav(prev: Option<SearchParams>, page: Option<int>, next: Option<SearchParams>)

  function Pagination(p: SearchParams, page: Option<int>, found: int): (r: Option<Nav>)
    ensures r.Some? <==> found > 12
    ensures r.Some? ==> (r.value.prev.Some? <==> page.Some? && page.value > 1)
    ensures r.Some? ==> (r.value.next.Some? <==> page.Some? && page.value * 12 < found)
  {
    if found <= PerPage then None
    else
      var prev := if page.Some? && page.value > 1 then Some(p.(page := Some(IntToString(page.value - 1)))) else None;
      var next := if page.Some? && page.value * PerPage < found then Some(p.(page := Some(IntToString(page.value + 1)))) else None;
      Some(Nav(prev, page, next))
  }

  /** "Next" is shown exactly before the last page, ⌈found / 12⌉. */
  lemma NextBeforeLastPage(p: SearchParams, page: int, found: int)
    requires found > 12
    ensures Pagination(p, Some(page), found).value.next.Some? <==> page < (found + 11) / 12
  {
  }

  /** Following "Previous" or "Next" moves one page and changes nothing else the page reads. */
  lemma NeighbourLinksFollowed(p: SearchParams, page: int, found: int)
    requires found > 12
    ensures var nav := Pagination(p, Some(page), found).value;
      && (nav.prev.Some? ==> Normalize(nav.prev.value) == Normalize(p).(page := Some(page - 1)))
      && (nav.next.Some? ==> Normalize(nav.next.value) == Normalize(p).(page := Some(page + 1)))
  {
    NormalizePage(p, page - 1);
    NormalizePage(p, page + 1);
  }

  /** The page a "Next" link leads to still has results. */
  lemma NextPageHasResults(p: SearchParams, page: int, found: int)
    requires found > 12 && page >= 1
    requires Pagination(p, Some(page), found).value.next.Some?
    ensures page * 12 < found
    ensures var (first, last) := Range(Some(page + 1), found).value; 1 <= first <= last <= found
  {
    RangeBounds(page + 1, found);
  }

  // ---------------------------------------------------------------------
  // The page
  // ---------------------------------------------------------------------

  /** One facet checkbox: its value, label, hit count, state and link. */
  datatype FacetOption = FacetOption(value: string, caption: string, count: int, checked: bool, link: QueryString)

  /** `in_stock` values are labelled; other values are shown as they are. */
  function Label(field: string, value: string): string {
    if field == "in_stock" then (if value == "true" then "In Stock" else "Out of Stock") else value
  }

  function FacetOptions(p: SearchParams, facet: Gateway.FacetCount): (r: seq<FacetOption>)
    ensures |r| == |facet.counts|
    ensures forall i :: 0 <= i < |r| ==>
      && r[i].value == facet.counts[i].value
      && r[i].checked == IsChecked(p.filter_by, facet.field_name, facet.counts[i].value)
      && r[i].link == ToggleLink(p, facet.field_name, facet.counts[i].value)
  {
    seq(|facet.counts|, i requires 0 <= i < |facet.counts| =>
      var c := facet.counts[i];
      FacetOption(c.value, Label(facet.field_name, c.value), c.count,
                  IsChecked(p.filter_by, facet.field_name, c.value),
                  ToggleLink(p, facet.field_name, c.value)))
  }

  /** What the results area shows. The error view of the `catch` is absent: `searchWithFallback` never fails. */
  datatype View =
    | NoResults(query: string)
    | Results(range: Option<(int, int)>, found: int, query: string, clearAll: Option<QueryString>,
              facets: seq<seq<FacetOption>>, hits: seq<Gateway.Hit>, nav: Option<Nav>)

  /** What the results area shows for the page's parameters and the answer to its search. */
  function Show(p: SearchParams, res: Gateway.SearchResult): (v: View)
    ensures v.NoResults? <==> res.found == 0 && StrTruthy(p.q)
    ensures v.NoResults? ==> v.query == p.q.value
    ensures var s := Normalize(p);
      v.Results? ==>
        && v.hits == res.hits && v.found == res.found && v.clearAll == ClearAllLink(p)
        && v.nav == Pagination(p, s.page, res.found)
        && v.query == s.query
        && v.range == (if res.found > 0 then Range(s.page, res.found) else None)
        && (v.range.Some? <==> res.found > 0 && s.page.Some?)
        && |v.facets| == |res.facet_counts|
        && forall i :: 0 <= i < |v.facets| ==> v.facets[i] == FacetOptions(p, res.facet_counts[i])
  {
    var s := Normalize(p);
    if res.found == 0 && s.query != "" then NoResults(s.query)
    else
      var facets := seq(|res.facet_counts|, i requires 0 <= i < |res.facet_counts| =>
                          FacetOptions(p, res.facet_counts[i]));
      Results(if res.found > 0 then Range(s.page, res.found) else None, res.found, s.query,
              ClearAllLink(p), facets, res.hits, Pagination(p, s.page, res.found))
  }

  /** The page: its search never fails, so the results area is always shown for some answer. */
  function Render(backend: (string, Gateway.SearchParameters) -> Result<Gateway.RawResponse, string>,
                  p: SearchParams): (v: View)
    ensures var sent := Gateway.BuildParameters(Request(Normalize(p)));
      && (backend(Products, sent).Success? ==>
            v == Show(p, Gateway.Normalize(backend(Products, sent).value)))
      && (backend(Products, sent).Failure? ==> v == Show(p, Gateway.Fallback(Request(Normalize(p)).q)))
  {
    Show(p, Gateway.SearchWithFallback(backend, Products, Request(Normalize(p))))
  }

  /** A service that is down. */
  function Down(collection: string, params: Gateway.SearchParameters): Result<Gateway.RawResponse, string> {
    Failure("unreachable")
  }

  /** With the service down, searching "headphones" shows hit 1 alone, as "Showing 1-1 of 1", with no pagination. */
  lemma HeadphonesWhileDown()
    ensures var v := Render(Down, SearchParams(Some("headphones"), None, None, None));
      && v.Results? && v.hits == [Gateway.MockHeadphones] && v.found == 1
      && v.range == Some((1, 1)) && v.nav.None? && v.clearAll.None?
  {
    var p := SearchParams(Some("headphones"), None, None, None);
    NormalizePage(p, 1);
    assert Gateway.BuildParameters(Request(Normalize(p))).q == "headphones";
    GatewayExamples.FallbackHeadphones();
  }

  /** With the service down, a query nothing matches shows the empty state. */
  lemma NoMatchWhileDown()
    ensures Render(Down, SearchParams(Some("xyz-no-match"), None, None, None)) == NoResults("xyz-no-match")
  {
    GatewayExamples.FallbackNoMatch();
  }
}
