/** The web Prep page (client/src/pages/Prep.jsx): the list query, the
    one-time seeding of an empty bank, the per-category and practiced counts,
    tag formatting, the practiced toggle and the expanded question. */
module PrepPage {
  import opened Wrappers
  import opened Strings
  import opened Seqs
  import opened Schema
  import opened Store

  // ---------------------------------------------------------------------------
  // Query
  // ---------------------------------------------------------------------------

  /** The URLSearchParams `load` sends: None where the parameter is not set. */
  datatype Query = Query(category: Option<string>, search: Option<string>)

  /** category only when it is not 'all', search only when non-empty. */
  function QueryOf(cat: string, search: string): (q: Query)
    ensures q.category.Some? <==> cat != "all"
    ensures q.category.Some? ==> q.category.value == cat
    ensures q.search.Some? <==> search != ""
    ensures q.search.Some? ==> q.search.value == search
  {
    Query(if cat != "all" then Some(cat) else None, if search != "" then Some(search) else None)
  }

  /** The server's answer to the page's query. */
  function Fetch(prep: seq<PrepQuestion>, q: Query): (r: seq<PrepQuestion>)
    ensures forall x :: x in r <==> x in prep && PrepMatches(x, q.category, q.search)
  {
    ListPrep(prep, q.category, q.search)
  }

  /** With 'all' and no search the page receives every question, so an empty
      answer means an empty bank. */
  lemma FetchAllIsWholeBank(prep: seq<PrepQuestion>)
    ensures multiset(Fetch(prep, QueryOf("all", ""))) == multiset(prep)
    ensures |Fetch(prep, QueryOf("all", ""))| == |prep|
  {
    var r := Fetch(prep, QueryOf("all", ""));
    assert forall x :: multiset(r)[x] == multiset(prep)[x];
    assert multiset(r) == multiset(prep);
    assert |r| == |multiset(r)| == |multiset(prep)| == |prep|;
  }

  /** The seeding condition of `load`. */
  predicate ShouldSeed(received: nat, seeded: bool, cat: string, search: string)
    ensures ShouldSeed(received, seeded, cat, search) ==> received == 0 && cat == "all" && search == ""
    ensures seeded ==> !ShouldSeed(received, seeded, cat, search)
  {
    received == 0 && !seeded && cat == "all" && search == ""
  }

  /** The rows the seeding loop inserts, ids counted from start. */
  function SeedRows(start: int, seeds: seq<PrepInput>, now: string): (rows: seq<PrepQuestion>)
    requires forall k :: 0 <= k < |seeds| ==> seeds[k].category.Some? && seeds[k].question.Some?
    ensures |rows| == |seeds|
    ensures forall k :: 0 <= k < |seeds| ==> rows[k] == NewPrep(start + k, seeds[k], now)
  {
    seq(|seeds|, k requires 0 <= k < |seeds| => NewPrep(start + k, seeds[k], now))
  }

  // ---------------------------------------------------------------------------
  // Counts
  // ---------------------------------------------------------------------------

  function CategoryIs(c: string): PrepQuestion -> bool
  {
    (q: PrepQuestion) => q.category == c
  }

  function CategoryAmong(cats: seq<string>): PrepQuestion -> bool
  {
    (q: PrepQuestion) => q.category in cats
  }

  /** The `reduce` over the five categories: each gets the number of loaded
      questions in it; 'all' gets no entry. */
  method CountByCategory(questions: seq<PrepQuestion>) returns (counts: map<string, nat>)
    ensures forall c :: c in counts <==> c in Categories
    ensures forall c :: c in counts ==> counts[c] == Count(questions, CategoryIs(c))
  {
    counts := map[];
    var i := 0;
    while i < |Categories|
      invariant 0 <= i <= |Categories|
      invariant forall c :: c in counts <==> c in Categories[..i]
      invariant forall c :: c in counts ==> counts[c] == Count(questions, CategoryIs(c))
    {
      var c := Categories[i];
      counts := counts[c := Count(questions, CategoryIs(c))];
      assert Categories[..i + 1] == Categories[..i] + [c];
      i := i + 1;
    }
  }

  /** `counts[c] || 0`. */
  function CountShown(counts: map<string, nat>, c: string): (n: nat)
    ensures c in counts ==> n == counts[c]
    ensures c !in counts ==> n == 0
  {
    if c in counts then counts[c] else 0
  }

  /** The category cards added up. */
  function CardTotal(counts: map<string, nat>, cats: seq<string>): nat
  {
    if cats == [] then 0 else CardTotal(counts, cats[..|cats| - 1]) + CountShown(counts, cats[|cats| - 1])
  }

  /** The counts of the given categories add up to the questions in one of them. */
  lemma {:induction false} CardTotalCounts(questions: seq<PrepQuestion>, counts: map<string, nat>, cats: seq<string>)
    requires forall c :: c in counts ==> counts[c] == Count(questions, CategoryIs(c))
    requires forall c :: c in cats ==> c in counts
    requires forall i, j :: 0 <= i < j < |cats| ==> cats[i] != cats[j]
    ensures CardTotal(counts, cats) == Count(questions, CategoryAmong(cats))
  {
    if cats == [] {
      FilterNone(questions, CategoryAmong(cats));
    } else {
      var ks, k := cats[..|cats| - 1], cats[|cats| - 1];
      assert cats == ks + [k];
      CardTotalCounts(questions, counts, ks);
      CountOr(questions, CategoryAmong(ks), CategoryIs(k), CategoryAmong(cats));
    }
  }

  /** The five category cards never add up to more than the loaded questions. */
  lemma CardTotalBounded(questions: seq<PrepQuestion>, counts: map<string, nat>)
    requires forall c :: c in counts ==> counts[c] == Count(questions, CategoryIs(c))
    requires forall c :: c in counts <==> c in Categories
    ensures CardTotal(counts, Categories) == Count(questions, CategoryAmong(Categories))
    ensures CardTotal(counts, Categories) <= |questions|
  {
    CardTotalCounts(questions, counts, Categories);
  }

  /** `practiced` is truthy. */
  function IsPracticed(q: PrepQuestion): bool
  {
    q.practiced != 0
  }

  /** `questions.filter(q => q.practiced).length`. */
  function PracticedCount(questions: seq<PrepQuestion>): (n: nat)
    ensures n <= |questions|
    ensures n == |Filter(questions, IsPracticed)|
  {
    Count(questions, IsPracticed)
  }

  // ---------------------------------------------------------------------------
  // Practiced toggle and expanded question
  // ---------------------------------------------------------------------------

  /** `{ ...q, practiced: !q.practiced }` as `PUT /api/prep/:id` reads it. */
  function ToggleInput(q: PrepQuestion): (input: PrepInput)
    ensures input.category == Some(q.category) && input.question == Some(q.question)
    ensures input.practiced <==> !IsPracticed(q)
  {
    PrepInput(Some(q.category), Some(q.question), q.answer, q.tags, q.difficulty, q.practiced == 0)
  }

  /** The toggle flips the flag and leaves every other column as it was. */
  lemma ToggleFlipsOnlyPracticed(q: PrepQuestion)
    requires PracticedFlag(q)
    ensures RevisedPrep(q, ToggleInput(q)) == q.(practiced := 1 - q.practiced)
  {
  }

  /** Toggling twice restores the question. */
  lemma ToggleTwice(q: PrepQuestion)
    requires PracticedFlag(q)
    ensures RevisedPrep(RevisedPrep(q, ToggleInput(q)), ToggleInput(RevisedPrep(q, ToggleInput(q)))) == q
  {
  }

  /** After one toggle the practiced count moves by exactly one, up when the
      question was not practiced. */
  lemma ToggleMovesPracticedCount(questions: seq<PrepQuestion>, k: nat)
    requires k < |questions| && PracticedFlag(questions[k])
    ensures var after := questions[k := RevisedPrep(questions[k], ToggleInput(questions[k]))];
      PracticedCount(after) == if IsPracticed(questions[k]) then PracticedCount(questions) - 1 else PracticedCount(questions) + 1
  {
    var x := RevisedPrep(questions[k], ToggleInput(questions[k]));
    CountReplace(questions, k, x, IsPracticed);
  }

  /** `setExpanded(expanded === q.id ? null : q.id)`. */
  function ExpandClick(expanded: Option<int>, id: int): (r: Option<int>)
    ensures r.None? <==> expanded == Some(id)
    ensures r.Some? ==> r.value == id
  {
    if expanded == Some(id) then None else Some(id)
  }

  /** Two clicks on a collapsed question leave it collapsed; at most one question is open. */
  lemma ExpandClickTwice(expanded: Option<int>, id: int)
    requires expanded != Some(id)
    ensures ExpandClick(ExpandClick(expanded, id), id) == None
  {
  }

  // ---------------------------------------------------------------------------
  // Tags
  // ---------------------------------------------------------------------------

  /** A tag as shown: '#' and then a word with no white space at either end. */
  predicate IsTag(t: string)
  {
    |t| >= 2 && t[0] == '#' && !IsSpace(t[1]) && !IsSpace(t[|t| - 1])
  }

  lemma HashTrimIsTag(p: string)
    requires !AllSpace(p)
    ensures IsTag("#" + Trim(p))
  {
    var t := Trim(p);
    assert ("#" + t)[1] == t[0];
    assert ("#" + t)[|t|] == t[|t| - 1];
  }

  /** `t => '#' + t`. */
  function Hashed(t: string): string
  {
    "#" + t
  }

  /** `Boolean` as a filter on strings: only "" is falsy. */
  predicate NonBlank(t: string)
  {
    t != ""
  }

  /** `.map(t => t.trim()).filter(Boolean).map(t => '#' + t)` over the comma
      parts, built part by part (TagListIsPipeline: the same list as the
      three array passes). */
  function TagList(parts: seq<string>): (tags: seq<string>)
    ensures |tags| <= |parts|
    ensures forall t :: t in tags ==> IsTag(t)
  {
    if parts == [] then []
    else
      var p := parts[|parts| - 1];
      var t := Trim(p);
      if t == "" then TagList(parts[..|parts| - 1])
      else
        HashTrimIsTag(p);
        TagList(parts[..|parts| - 1]) + ["#" + t]
  }

  /** One tag per part that is not all white space, in order: '#' and the
      trimmed part. */
  lemma {:induction false} TagListIsPipeline(parts: seq<string>)
    ensures TagList(parts) == Map(Hashed, Filter(Map(Trim, parts), NonBlank))
  {
    if parts != [] {
      var init, t := parts[..|parts| - 1], Trim(parts[|parts| - 1]);
      TagListIsPipeline(init);
      var trimmed := Map(Trim, init);
      var kept := Filter(trimmed, NonBlank);
      MapLast(Trim, parts);
      FilterSnoc(trimmed, t, NonBlank);
      if t == "" {
        assert TagList(parts) == TagList(init);
      } else {
        MapSnoc(Hashed, kept, t);
        assert TagList(parts) == TagList(init) + ["#" + t];
      }
    }
  }

  /** `q.tags.split(',')…join(' ')`. */
  function FormatTags(tags: string): (r: string)
    ensures r == Join(TagList(Split(tags, ",")), " ")
    ensures r == "" <==> TagList(Split(tags, ",")) == []
  {
    var list := TagList(Split(tags, ","));
    if list == [] then "" else assert list[0] in list; Join(list, " ")
  }

  /** Blank parts are dropped: a text of commas and white space shows no tag. */
  lemma {:induction false} TagListOfBlankParts(parts: seq<string>)
    requires forall i :: 0 <= i < |parts| ==> AllSpace(parts[i])
    ensures TagList(parts) == []
  {
    if parts != [] {
      TagListOfBlankParts(parts[..|parts| - 1]);
    }
  }

  lemma TagListOfTwo(a: string, b: string)
    requires !AllSpace(a) && !AllSpace(b)
    ensures TagList([a, b]) == ["#" + Trim(a), "#" + Trim(b)]
  {
    assert [a, b][..1] == [a];
    assert [a][..0] == [];
  }

  lemma JoinTwoTags(ta: string, tb: string)
    ensures Join(["#" + ta, "#" + tb], " ") == "#" + ta + " #" + tb
  {
    assert ["#" + ta, "#" + tb][1..] == ["#" + tb];
  }

  /** Two tags around one comma are each trimmed and prefixed with '#'. */
  lemma FormatTagsOfTwo(a: string, b: string)
    requires ',' !in a && ',' !in b
    requires !AllSpace(a) && !AllSpace(b)
    ensures FormatTags(a + "," + b) == "#" + Trim(a) + " #" + Trim(b)
  {
    SplitAtOnlySeparator(a, b, ',');
    TagListOfTwo(a, b);
    JoinTwoTags(Trim(a), Trim(b));
  }

  // ---------------------------------------------------------------------------
  // Page state
  // ---------------------------------------------------------------------------

  /** The page's state: the loaded questions, the filters, the seeding flag and
      the expanded question. */
  class PrepScreen {
    var questions: seq<PrepQuestion>
    var cat: string
    var search: string
    var seeded: bool
    var expanded: Option<int>

    constructor()
      ensures questions == [] && cat == "all" && search == "" && !seeded && expanded == None
    {
      questions := [];
      cat := "all";
      search := "";
      seeded := false;
      expanded := None;
    }

    /** `load`: query the store; when the query finds nothing, seeding has not
        run, and no filter is set, post every seed once, set `seeded`, and
        query again. Otherwise the store is not touched. The second query is
        the recursive `load()`, which cannot seed again: it finds the seeds. */
    method Load(db: Database, seeds: seq<PrepInput>, now: string)
      requires db.Valid()
      requires |seeds| > 0
      requires forall k :: 0 <= k < |seeds| ==> seeds[k].category.Some? && seeds[k].question.Some?
      modifies this, db
      ensures db.Valid()
      ensures cat == old(cat) && search == old(search) && expanded == old(expanded)
      ensures var q := QueryOf(old(cat), old(search));
        if ShouldSeed(|Fetch(old(db.tables.prep), q)|, old(seeded), old(cat), old(search)) then
          && seeded
          && db.tables == old(db.tables).(prep := old(db.tables.prep) + SeedRows(old(db.tables.nextPrepId), seeds, now),
                                          nextPrepId := old(db.tables.nextPrepId) + |seeds|)
          && questions == Fetch(db.tables.prep, q)
          && multiset(questions) == multiset(SeedRows(old(db.tables.nextPrepId), seeds, now))
        else
          && seeded == old(seeded)
          && db.tables == old(db.tables)
          && questions == Fetch(old(db.tables.prep), q)
    {
      var q := QueryOf(cat, search);
      var data := Fetch(db.tables.prep, q);
      if ShouldSeed(|data|, seeded, cat, search) {
        seeded := true;
        FetchAllIsWholeBank(db.tables.prep);
        ghost var start := db.tables.nextPrepId;
        PostSeeds(db, seeds, now);
        FetchAllIsWholeBank(db.tables.prep);
        assert db.tables.prep == SeedRows(start, seeds, now);
        questions := Fetch(db.tables.prep, q);
      } else {
        questions := data;
      }
    }

    /** Clicking a question's header. */
    method ClickQuestion(id: int)
      modifies this
      ensures expanded == ExpandClick(old(expanded), id)
      ensures questions == old(questions) && cat == old(cat) && search == old(search) && seeded == old(seeded)
    {
      expanded := ExpandClick(expanded, id);
    }
  }

  /** The seeding `for` loop: one `POST /api/prep` per seed, in order. */
  method PostSeeds(db: Database, seeds: seq<PrepInput>, now: string)
    requires db.Valid()
    requires forall k :: 0 <= k < |seeds| ==> seeds[k].category.Some? && seeds[k].question.Some?
    modifies db
    ensures db.Valid()
    ensures db.tables == old(db.tables).(prep := old(db.tables.prep) + SeedRows(old(db.tables.nextPrepId), seeds, now),
                                         nextPrepId := old(db.tables.nextPrepId) + |seeds|)
  {
    ghost var t0 := db.tables;
    var i := 0;
    while i < |seeds|
      invariant 0 <= i <= |seeds|
      invariant db.Valid()
      invariant db.tables == t0.(prep := t0.prep + SeedRows(t0.nextPrepId, seeds[..i], now), nextPrepId := t0.nextPrepId + i)
    {
      var r := db.CreatePrep(seeds[i], now);
      assert SeedRows(t0.nextPrepId, seeds[..i + 1], now) == SeedRows(t0.nextPrepId, seeds[..i], now) + [r.value];
      i := i + 1;
    }
    assert seeds[..i] == seeds;
  }

  /** Seeding runs at most once: two loads in a row add the seeds to the
      store once or not at all. */
  method LoadTwice(page: PrepScreen, db: Database, seeds: seq<PrepInput>, now: string)
    requires db.Valid()
    requires |seeds| > 0
    requires forall k :: 0 <= k < |seeds| ==> seeds[k].category.Some? && seeds[k].question.Some?
    modifies page, db
    ensures db.Valid()
    ensures || db.tables.prep == old(db.tables.prep)
            || db.tables.prep == old(db.tables.prep) + SeedRows(old(db.tables.nextPrepId), seeds, now)
  {
    page.Load(db, seeds, now);
    page.Load(db, seeds, now);
  }
}
