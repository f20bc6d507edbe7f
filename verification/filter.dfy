/** The project filter: a free-text search box, a row of category chips and a
    grid of project cards whose visibility is recomputed on every change
    (assets/js/main.js:97-158). */
module Filter {
  import opened Opt
  import opened Text

  /** A `.chip` button: its `data-tag` and whether it carries the `active` class. */
  datatype Chip = Chip(tag: string, active: bool)

  /** A `#projectGrid .card`: the text of its `h3` heading and its `data-tags`
      attribute, either of which may be missing, and its `style.display`. */
  datatype Card = Card(heading: Option<string>, dataTags: Option<string>, display: string)

  /** The first index whose element satisfies `p`, in document order. */
  function FirstIndex<T>(s: seq<T>, p: T -> bool): (r: Option<nat>)
    ensures r.Some? ==> r.value < |s| && p(s[r.value])
    ensures r.Some? ==> forall j :: 0 <= j < r.value ==> !p(s[j])
    ensures r.None? ==> forall j :: 0 <= j < |s| ==> !p(s[j])
  {
    if s == [] then None
    else if p(s[0]) then Some(0)
    else match FirstIndex(s[1..], p)
      case None => None
      case Some(k) => Some(k + 1)
  }

  /** `document.querySelector(".chip.active")`. */
  function ActiveIndex(chips: seq<Chip>): (r: Option<nat>)
    ensures r.Some? ==> r.value < |chips| && chips[r.value].active
    ensures r.Some? ==> forall j :: 0 <= j < r.value ==> !chips[j].active
    ensures r.None? ==> forall j :: 0 <= j < |chips| ==> !chips[j].active
  {
    FirstIndex(chips, (c: Chip) => c.active)
  }

  /** The first chip whose tag equals `t` ignoring case (line 140). */
  function MatchingChip(chips: seq<Chip>, t: string): (r: Option<nat>)
    ensures r.Some? ==> r.value < |chips| && Lower(chips[r.value].tag) == Lower(t)
    ensures r.Some? ==> forall j :: 0 <= j < r.value ==> Lower(chips[j].tag) != Lower(t)
    ensures r.None? ==> forall j :: 0 <= j < |chips| ==> Lower(chips[j].tag) != Lower(t)
  {
    FirstIndex(chips, (c: Chip) => Lower(c.tag) == Lower(t))
  }

  /** `document.querySelector('.chip[data-tag="all"]')`: an exact, case-sensitive match. */
  function AllChip(chips: seq<Chip>): (r: Option<nat>)
    ensures r.Some? ==> r.value < |chips| && chips[r.value].tag == "all"
    ensures r.Some? ==> forall j :: 0 <= j < r.value ==> chips[j].tag != "all"
    ensures r.None? ==> forall j :: 0 <= j < |chips| ==> chips[j].tag != "all"
  {
    FirstIndex(chips, (c: Chip) => c.tag == "all")
  }

  /** The tag the filter uses: the active chip's, lower-cased, or "all" (line 106). */
  function ActiveTag(chips: seq<Chip>): (tag: string)
    ensures ActiveIndex(chips).None? ==> tag == "all"
    ensures ActiveIndex(chips).Some? ==> tag == Lower(chips[ActiveIndex(chips).value].tag)
  {
    match ActiveIndex(chips)
    case None => "all"
    case Some(k) => Lower(chips[k].tag)
  }

  /** The query the filter uses: the search text lower-cased and trimmed (line 104). */
  function Query(raw: string): (q: string)
    ensures |q| <= |raw|
    ensures q == [] || (!IsSpace(q[0]) && !IsSpace(q[|q| - 1]))
  {
    Trim(Lower(raw))
  }

  /** The query holds no upper-case letter, and lower-casing before trimming
      (as the page does) is the same as trimming before lower-casing. */
  lemma QueryNormal(raw: string)
    ensures Query(raw) == Lower(Trim(raw))
    ensures forall i :: 0 <= i < |Query(raw)| ==> !IsUpper(Query(raw)[i])
  {
    LowerTrimCommute(raw);
    LowerHasNoUpper(Trim(raw));
  }

  /** The card's heading text, lower-cased; empty when the card has no `h3`. */
  function CardName(c: Card): (r: string)
    ensures |r| == |c.heading.GetOr("")|
    ensures forall i :: 0 <= i < |r| ==> !IsUpper(r[i])
    ensures c.heading.None? ==> r == ""
  {
    Lower(c.heading.GetOr(""))
  }

  /** The card's `data-tags`, lower-cased; empty when the attribute is missing. */
  function CardTags(c: Card): (r: string)
    ensures |r| == |c.dataTags.GetOr("")|
    ensures forall i :: 0 <= i < |r| ==> !IsUpper(r[i])
    ensures c.dataTags.None? ==> r == ""
  {
    Lower(c.dataTags.GetOr(""))
  }

  /** The visibility rule of lines 111-113. */
  predicate Shows(c: Card, tag: string, q: string)
    ensures Shows(c, tag, q) ==> tag == "all" || Occurs(tag, CardTags(c))
    ensures Shows(c, tag, q) ==> q == "" || Occurs(q, CardName(c)) || Occurs(q, CardTags(c))
    ensures tag == "all" && q == "" ==> Shows(c, tag, q)
  {
    (tag == "all" || Includes(CardTags(c), tag))
    && (q == "" || Includes(CardName(c), q) || Includes(CardTags(c), q))
  }

  /** One card after the loop body of lines 108-114: only its display changes. */
  function Refresh(c: Card, tag: string, q: string): (r: Card)
    ensures r.heading == c.heading && r.dataTags == c.dataTags
    ensures r.display == "block" || r.display == "none"
    ensures r.display == "block" <==> Shows(c, tag, q)
  {
    c.(display := if Shows(c, tag, q) then "block" else "none")
  }

  /** Every card with its display recomputed; nothing else about it changes. */
  function Filtered(cs: seq<Card>, tag: string, q: string): (r: seq<Card>)
    ensures |r| == |cs|
    ensures forall i :: 0 <= i < |r| ==> r[i].heading == cs[i].heading && r[i].dataTags == cs[i].dataTags
    ensures forall i :: 0 <= i < |r| ==> r[i].display == "block" || r[i].display == "none"
  {
    seq(|cs|, i requires 0 <= i < |cs| => Refresh(cs[i], tag, q))
  }

  /** The filter is sound and complete: a card is displayed as "block" exactly
      when it passes both the tag test and the text test, and "none" otherwise;
      the cards, their order, their headings and their tags stay as they were. */
  lemma FilteredDisplay(cs: seq<Card>, tag: string, q: string, i: nat)
    requires i < |cs|
    ensures Filtered(cs, tag, q)[i].heading == cs[i].heading
    ensures Filtered(cs, tag, q)[i].dataTags == cs[i].dataTags
    ensures Filtered(cs, tag, q)[i].display == "block" <==>
      (tag == "all" || Occurs(tag, CardTags(cs[i])))
      && (q == "" || Occurs(q, CardName(cs[i])) || Occurs(q, CardTags(cs[i])))
    ensures Filtered(cs, tag, q)[i].display == "none" <==> !Shows(cs[i], tag, q)
  {
  }

  /** Refiltering is idempotent: the display depends only on the inputs. */
  lemma FilteredIdempotent(cs: seq<Card>, tag: string, q: string)
    ensures Filtered(Filtered(cs, tag, q), tag, q) == Filtered(cs, tag, q)
  {
  }

  /** With no chip active every card passes the tag test, and an empty query
      lets every card through the text test. */
  lemma NoActiveChipShowsByText(chips: seq<Chip>, c: Card, q: string)
    requires forall j :: 0 <= j < |chips| ==> !chips[j].active
    ensures Shows(c, ActiveTag(chips), q) <==> Shows(c, "all", q)
    ensures Shows(c, ActiveTag(chips), "")
  {
  }

  /** The tag test is a substring test, not a token test: "web" accepts "webdev". */
  lemma TagIsSubstring()
    ensures Shows(Card(Some("Blog"), Some("webdev"), ""), "web", "")
  {
    var c := Card(Some("Blog"), Some("webdev"), "");
    assert CardTags(c) == "webdev";
    assert OccursAt("web", "webdev", 0);
  }

  /** A card named "Portfolio Site" tagged "web,design" shows once the chip
      tagged "design" alone is active and the search is empty. */
  lemma PortfolioShown(chips: seq<Chip>, k: nat, c: Card)
    requires k < |chips| && chips[k].tag == "design"
    requires c.heading == Some("Portfolio Site") && c.dataTags == Some("web,design")
    ensures Shows(c, ActiveTag(Activate(chips, Some(k))), Query(""))
  {
    DesignChipTag(chips, k);
    var tags := CardTags(c);
    assert tags == "web,design";
    assert OccursAt("design", tags, 4);
    QueryFixed("");
  }

  /** The same card hides under the same chip once the search is "blog". */
  lemma PortfolioHidden(chips: seq<Chip>, k: nat, c: Card, search: string)
    requires k < |chips| && chips[k].tag == "design"
    requires c.heading == Some("Portfolio Site") && c.dataTags == Some("web,design")
    requires search == "blog"
    ensures !Shows(c, ActiveTag(Activate(chips, Some(k))), Query(search))
  {
    DesignChipTag(chips, k);
    QueryFixed(search);
    PortfolioLacks(c, search);
  }

  /** With the chip tagged "design" alone active, the filter tag is "design". */
  lemma DesignChipTag(chips: seq<Chip>, k: nat)
    requires k < |chips| && chips[k].tag == "design"
    ensures ActiveTag(Activate(chips, Some(k))) == "design"
  {
    ActivateTag(chips, Some(k));
    var t := chips[k].tag;
    assert forall i :: 0 <= i < |t| ==> !IsUpper(t[i]);
    assert Lower(t) == t;
  }

  lemma PortfolioLacks(c: Card, search: string)
    requires c.heading == Some("Portfolio Site") && c.dataTags == Some("web,design")
    requires search == "blog"
    ensures !Includes(CardName(c), search) && !Includes(CardTags(c), search)
  {
    assert !Includes(CardName(c), search) by {
      assert CardName(c) == "portfolio site";
      NotIncludes(CardName(c), search, 0);
    }
    assert !Includes(CardTags(c), search) by {
      assert CardTags(c) == "web,design";
      NotIncludes(CardTags(c), search, 1);
    }
  }

  /** Search text already lower-case and trimmed is its own query. */
  lemma QueryFixed(s: string)
    requires forall i :: 0 <= i < |s| ==> !IsUpper(s[i])
    requires s == [] || (!IsSpace(s[0]) && !IsSpace(s[|s| - 1]))
    ensures Query(s) == s
  {
    assert Lower(s) == s;
    assert s[0..0 + |s|] == s && s[..0] == [] && s[|s|..] == [];
    assert TrimAt(s, s, 0);
    TrimStrips(s);
    TrimUnique(s, Trim(s), s);
  }

  /** Matching ignores case on both sides: cards whose headings and tags differ
      only in case, searched with texts that differ only in case, are shown
      alike. */
  lemma CaseInsensitive(c1: Card, c2: Card, tag: string, raw1: string, raw2: string)
    requires Lower(c1.heading.GetOr("")) == Lower(c2.heading.GetOr(""))
    requires Lower(c1.dataTags.GetOr("")) == Lower(c2.dataTags.GetOr(""))
    requires Lower(raw1) == Lower(raw2)
    ensures Shows(c1, tag, Query(raw1)) == Shows(c2, tag, Query(raw2))
  {
  }

  /** Chips whose tags differ only in case select the same filter tag. */
  lemma ChipTagCaseInsensitive(chips: seq<Chip>, k: nat, t: string)
    requires k < |chips| && Lower(chips[k].tag) == Lower(t)
    ensures ActiveTag(Activate(chips, Some(k))) == ActiveTag(Activate(chips[k := chips[k].(tag := t)], Some(k)))
  {
    ActivateTag(chips, Some(k));
    ActivateTag(chips[k := chips[k].(tag := t)], Some(k));
  }

  /** The query is a fixed point of its own normalisation. */
  lemma QueryIdempotent(raw: string)
    ensures Query(Query(raw)) == Query(raw)
  {
    var q := Query(raw);
    LowerTrimCommute(raw);
    assert q == Lower(Trim(raw));
    LowerIdempotent(Trim(raw));
    LowerTrimCommute(q);
    TrimIdempotent(Lower(raw));
  }

  /** The chips with only the one at `sel` (if any) active; tags untouched. */
  function Activate(chips: seq<Chip>, sel: Option<nat>): (r: seq<Chip>)
    ensures |r| == |chips|
    ensures forall j :: 0 <= j < |r| ==> r[j].tag == chips[j].tag
    ensures sel.None? ==> forall j :: 0 <= j < |r| ==> !r[j].active
  {
    seq(|chips|, j requires 0 <= j < |chips| => chips[j].(active := sel == Some(j)))
  }

  /** After `Activate` the selected chip is the only active one, whatever was
      active before, and every chip keeps its tag. */
  lemma ActivateExclusive(chips: seq<Chip>, sel: Option<nat>, j: nat)
    requires j < |chips|
    ensures Activate(chips, sel)[j].active <==> sel == Some(j)
    ensures Activate(chips, sel)[j].tag == chips[j].tag
  {
  }

  /** After `Activate` the filter reads the selected chip's tag, lower-cased,
      or "all" when nothing is selected. */
  lemma ActivateTag(chips: seq<Chip>, sel: Option<nat>)
    requires sel.Some? ==> sel.value < |chips|
    ensures ActiveTag(Activate(chips, sel)) == if sel.Some? then Lower(chips[sel.value].tag) else "all"
  {
    var a := Activate(chips, sel);
    if sel.Some? {
      assert a[sel.value].active;
    }
  }

  /** The chip an inline tag selects: the first chip matching it ignoring case,
      otherwise the "all" chip, otherwise none (lines 140-146). */
  function InlineSelection(chips: seq<Chip>, t: string): (sel: Option<nat>)
    ensures sel.Some? ==> sel.value < |chips|
    ensures (exists j :: 0 <= j < |chips| && Lower(chips[j].tag) == Lower(t)) ==>
      && sel.Some?
      && Lower(chips[sel.value].tag) == Lower(t)
      && forall j :: 0 <= j < sel.value ==> Lower(chips[j].tag) != Lower(t)
    ensures (forall j :: 0 <= j < |chips| ==> Lower(chips[j].tag) != Lower(t)) ==>
      && (sel.Some? ==> chips[sel.value].tag == "all" && forall j :: 0 <= j < sel.value ==> chips[j].tag != "all")
      && (sel.None? ==> forall j :: 0 <= j < |chips| ==> chips[j].tag != "all")
  {
    match MatchingChip(chips, t)
    case Some(k) => Some(k)
    case None => AllChip(chips)
  }

  /** After an inline tag click the filter runs with the tag itself, lower-cased,
      when a chip matches it, and with "all" otherwise. */
  lemma InlineTag(chips: seq<Chip>, t: string)
    ensures ActiveTag(Activate(chips, InlineSelection(chips, t))) ==
      if exists j :: 0 <= j < |chips| && Lower(chips[j].tag) == Lower(t) then Lower(t) else "all"
  {
    var sel := InlineSelection(chips, t);
    ActivateTag(chips, sel);
    if MatchingChip(chips, t).None? && sel.Some? {
      assert chips[sel.value].tag == "all";
      assert Lower("all") == "all";
    }
  }

  /** A chip, an inline tag with no matching chip, and the "all" fallback. */
  lemma InlineTagFallsBackToAll()
    ensures InlineSelection([Chip("all", false), Chip("web", true)], "design") == Some(0)
  {
    var chips := [Chip("all", false), Chip("web", true)];
    assert Lower(chips[0].tag) != Lower("design");
    assert Lower(chips[1].tag) != Lower("design");
  }

  class ProjectFilter {
    const chips: array<Chip>
    const cards: array<Card>
    /** Whether `#projectSearch` exists. */
    const searchPresent: bool
    /** The search box's `value`. */
    var query: string

    constructor (chips: array<Chip>, cards: array<Card>, searchPresent: bool, query: string)
      ensures this.chips == chips && this.cards == cards
      ensures this.searchPresent == searchPresent && this.query == query
    {
      this.chips := chips;
      this.cards := cards;
      this.searchPresent := searchPresent;
      this.query := query;
    }

    /** `search?.value || ""`. */
    function RawQuery(): (r: string)
      reads this
      ensures searchPresent ==> r == query
      ensures !searchPresent ==> r == ""
    {
      if searchPresent then query else ""
    }

    /** `applyFilter`: rewrite every card's display from the active tag and the query. */
    method ApplyFilter()
      modifies cards
      ensures cards[..] == Filtered(old(cards[..]), ActiveTag(chips[..]), Query(RawQuery()))
    {
      ghost var c0 := chips[..];
      ghost var r0 := RawQuery();
      var q := Query(RawQuery());
      var tag := ActiveTag(chips[..]);
      Refilter(tag, q);
      assert chips[..] == c0;
      assert RawQuery() == r0;
      assert tag == ActiveTag(chips[..]);
      assert q == Query(RawQuery());
    }

    /** The `forEach` over the cards of lines 108-114. */
    method Refilter(tag: string, q: string)
      modifies cards
      ensures cards[..] == Filtered(old(cards[..]), tag, q)
    {
      ghost var want := Filtered(cards[..], tag, q);
      for i := 0 to cards.Length
        invariant forall j :: 0 <= j < i ==> cards[j] == want[j]
        invariant forall j :: i <= j < cards.Length ==> cards[j] == old(cards[j])
      {
        cards[i] := Refresh(cards[i], tag, q);
      }
      assert forall j :: 0 <= j < cards.Length ==> cards[..][j] == want[j];
    }

    /** Remove the `active` class from every chip. */
    method ClearActive()
      modifies chips
      ensures chips[..] == Activate(old(chips[..]), None)
    {
      for i := 0 to chips.Length
        invariant forall j :: 0 <= j < i ==> chips[j] == old(chips[j]).(active := false)
        invariant forall j :: i <= j < chips.Length ==> chips[j] == old(chips[j])
      {
        chips[i] := chips[i].(active := false);
      }
    }

    /** The search box's `input` event. */
    method Input(text: string)
      requires searchPresent
      modifies this, cards
      ensures query == text
      ensures cards[..] == Filtered(old(cards[..]), ActiveTag(chips[..]), Query(text))
    {
      query := text;
      ApplyFilter();
    }

    /** The clear button: empty the search box and refilter. Without a search
        box the handler fails on its first statement and nothing changes. */
    method ClearSearch()
      modifies this, cards
      ensures searchPresent ==> query == ""
      ensures searchPresent ==> cards[..] == Filtered(old(cards[..]), ActiveTag(chips[..]), "")
      ensures !searchPresent ==> query == old(query) && cards[..] == old(cards[..])
    {
      if searchPresent {
        query := "";
        ApplyFilter();
      }
    }

    /** A click on chip `k`: it alone becomes active and the cards are
        refiltered by its tag. */
    method ClickChip(k: nat)
      requires k < chips.Length
      modifies chips, cards
      ensures chips[..] == Activate(old(chips[..]), Some(k))
      ensures cards[..] == Filtered(old(cards[..]), Lower(chips[k].tag), Query(RawQuery()))
    {
      ghost var before := chips[..];
      ClearActive();
      chips[k] := chips[k].(active := true);
      ghost var after := Activate(before, Some(k));
      assert forall j :: 0 <= j < chips.Length ==> chips[..][j] == after[j];
      assert chips[..] == after;
      ActivateTag(before, Some(k));
      ApplyFilter();
      assert chips[..] == after;
    }

    /** A click on an inline tag carrying `dataTag`. A missing or empty tag does
        nothing; otherwise the matching chip (or the "all" chip) alone becomes
        active, the search text is cleared and the cards are refiltered. */
    method ClickInlineTag(dataTag: Option<string>)
      modifies this, chips, cards
      ensures dataTag.None? || dataTag == Some("") ==>
        query == old(query) && chips[..] == old(chips[..]) && cards[..] == old(cards[..])
      ensures dataTag.Some? && dataTag.value != "" ==>
        && chips[..] == Activate(old(chips[..]), InlineSelection(old(chips[..]), dataTag.value))
        && query == (if searchPresent then "" else old(query))
        && cards[..] == Filtered(old(cards[..]), ActiveTag(chips[..]), Query(RawQuery()))
    {
      if dataTag.None? || dataTag.value == "" {
        return;
      }
      ghost var before := chips[..];
      var sel := InlineSelection(chips[..], dataTag.value);
      ClearActive();
      if sel.Some? {
        chips[sel.value] := chips[sel.value].(active := true);
      }
      ghost var after := Activate(before, sel);
      assert forall j :: 0 <= j < chips.Length ==> chips[..][j] == after[j];
      assert chips[..] == after;
      if searchPresent {
        query := "";
      }
      ApplyFilter();
      assert chips[..] == after;
    }

    /** Enter or Space on an inline tag acts as a click (line 152). */
    method KeyInlineTag(key: string, dataTag: Option<string>)
      modifies this, chips, cards
      ensures key != "Enter" && key != " " ==>
        query == old(query) && chips[..] == old(chips[..]) && cards[..] == old(cards[..])
      ensures (key == "Enter" || key == " ") && dataTag.Some? && dataTag.value != "" ==>
        && chips[..] == Activate(old(chips[..]), InlineSelection(old(chips[..]), dataTag.value))
        && query == (if searchPresent then "" else old(query))
        && cards[..] == Filtered(old(cards[..]), ActiveTag(chips[..]), Query(RawQuery()))
      ensures (key == "Enter" || key == " ") && (dataTag.None? || dataTag == Some("")) ==>
        query == old(query) && chips[..] == old(chips[..]) && cards[..] == old(cards[..])
    {
      if key == "Enter" || key == " " {
        ClickInlineTag(dataTag);
      }
    }
  }
}
