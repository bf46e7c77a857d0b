/** The planner store: the seven commands, the reducer that folds them over
    the application state, the date lookup, the seed data, and the provider
    object that holds the current state and mints ids. */
module ChallengeContext {
  import opened Types
  import opened Lists

  // ---------------------------------------------------------------------
  // Seed data
  // ---------------------------------------------------------------------

  const DefaultCategories: seq<Category> := [
    Category("1", "CSS Experiments", "#3B82F6"),
    Category("2", "JavaScript Interactions", "#F59E0B"),
    Category("3", "GSAP Animation", "#8B5CF6"),
    Category("4", "Three.js & WebGL", "#10B981"),
    Category("5", "UI Concepts & Microinteractions", "#EC4899")
  ]

  const InitialChallenges: seq<Challenge> := [
    Challenge("1", "Glassmorphism Card Hover Effect", "1", DayOf(2025, 5, 10), false,
      Some("https://css-tricks.com/glass-effect-for-your-website/")),
    Challenge("2", "Infinite Scroll Gallery", "2", DayOf(2025, 5, 15), false,
      Some("https://developer.mozilla.org/en-US/docs/Web/API/Intersection_Observer_API")),
    Challenge("3", "Animated Logo Reveal", "3", DayOf(2025, 5, 20), false,
      Some("https://greensock.com/docs/v3/Getting-Started")),
    Challenge("4", "3D Product Configurator", "4", DayOf(2025, 6, 5), false,
      Some("https://threejs.org/docs/#manual/en/introduction/Creating-a-scene")),
    Challenge("5", "Custom Radio Button Animation", "5", DayOf(2025, 6, 15), false,
      Some("https://developer.mozilla.org/en-US/docs/Web/CSS/CSS_animations")),
    Challenge("6", "Scroll-Triggered Timeline", "3", DayOf(2025, 6, 25), false,
      Some("https://greensock.com/scrolltrigger/")),
    Challenge("7", "Responsive Grid Masonry", "1", DayOf(2025, 7, 10), false,
      Some("https://developer.mozilla.org/en-US/docs/Web/CSS/CSS_grid_layout")),
    Challenge("8", "Drag & Drop Kanban Board", "2", DayOf(2025, 7, 20), false,
      Some("https://developer.mozilla.org/en-US/docs/Web/API/HTML_Drag_and_Drop_API")),
    Challenge("9", "WebGL Particle System", "4", DayOf(2025, 7, 30), false,
      Some("https://threejs.org/examples/#webgl_points_sprites"))
  ]

  const InitialState: AppState := AppState(InitialChallenges, DefaultCategories)

  // ---------------------------------------------------------------------
  // Invariants of a state
  // ---------------------------------------------------------------------

  /** Challenge ids are pairwise distinct, and so are category ids. */
  predicate UniqueIds(s: AppState)
  {
    DistinctKeys(s.challenges, ChallengeId) && DistinctKeys(s.categories, CategoryId)
  }

  /** Every challenge refers to a category that exists. */
  predicate RefIntegrity(s: AppState)
  {
    forall i :: 0 <= i < |s.challenges| ==> HasKey(s.categories, CategoryId, s.challenges[i].categoryId)
  }

  /** The seed state has unique ids and every seed challenge names a seed category. */
  lemma InitialStateIsWellFormed()
    ensures UniqueIds(InitialState) && RefIntegrity(InitialState)
  {
    var cats := DefaultCategories;
    assert cats[0].id == "1" && cats[1].id == "2" && cats[2].id == "3";
    assert cats[3].id == "4" && cats[4].id == "5";
  }

  // ---------------------------------------------------------------------
  // Commands and the reducer
  // ---------------------------------------------------------------------

  datatype Action =
    | AddChallenge(challenge: Challenge)
    | UpdateChallenge(challenge: Challenge)
    | DeleteChallenge(id: string)
    | MoveChallenge(id: string, newDate: Day)
    | AddCategory(category: Category)
    | UpdateCategory(category: Category)
    | DeleteCategory(id: string)

  /** `challenges.map(c => c.id === id ? {...c, date: newDate} : c)` */
  function MoveDate(cs: seq<Challenge>, id: string, newDate: Day): seq<Challenge>
  {
    seq(|cs|, i requires 0 <= i < |cs| => if cs[i].id == id then cs[i].(date := newDate) else cs[i])
  }

  /** `challenges.map(c => c.categoryId === from ? {...c, categoryId: to} : c)` */
  function Reassign(cs: seq<Challenge>, from: string, to: string): seq<Challenge>
  {
    seq(|cs|, i requires 0 <= i < |cs| => if cs[i].categoryId == from then cs[i].(categoryId := to) else cs[i])
  }

  /** The new state after one command. Challenge commands never touch the
      categories; adding or updating a category never touches the challenges. */
  function Reduce(s: AppState, a: Action): (r: AppState)
    ensures (a.AddChallenge? || a.UpdateChallenge? || a.DeleteChallenge? || a.MoveChallenge?)
              ==> r.categories == s.categories
    ensures (a.AddCategory? || a.UpdateCategory?) ==> r.challenges == s.challenges
    ensures !a.AddChallenge? && !a.DeleteChallenge? ==> |r.challenges| == |s.challenges|
  {
    match a
    case AddChallenge(c) => s.(challenges := s.challenges + [c])
    case UpdateChallenge(c) => s.(challenges := Replace(s.challenges, ChallengeId, c))
    case DeleteChallenge(id) => s.(challenges := Without(s.challenges, ChallengeId, id))
    case MoveChallenge(id, d) => s.(challenges := MoveDate(s.challenges, id, d))
    case AddCategory(c) => s.(categories := s.categories + [c])
    case UpdateCategory(c) => s.(categories := Replace(s.categories, CategoryId, c))
    case DeleteCategory(id) =>
      var remaining := Without(s.categories, CategoryId, id);
      var fallback := if |remaining| > 0 then remaining[0].id else "";
      AppState(Reassign(s.challenges, id, fallback), remaining)
  }

  // ---------------------------------------------------------------------
  // One lemma per command
  // ---------------------------------------------------------------------

  /** Adding a challenge appends it as the last element; the earlier ones
      and the categories stay as they were. */
  lemma AddChallengeAppends(s: AppState, c: Challenge)
    ensures var r := Reduce(s, AddChallenge(c));
      |r.challenges| == |s.challenges| + 1 && r.challenges[|s.challenges|] == c
      && r.challenges[..|s.challenges|] == s.challenges && r.categories == s.categories
  {
  }

  /** Adding a category appends it as the last element; the earlier ones and
      the challenges stay as they were. */
  lemma AddCategoryAppends(s: AppState, c: Category)
    ensures var r := Reduce(s, AddCategory(c));
      |r.categories| == |s.categories| + 1 && r.categories[|s.categories|] == c
      && r.categories[..|s.categories|] == s.categories && r.challenges == s.challenges
  {
  }

  /** Updating a challenge replaces exactly the challenges with the payload's
      id, in place; with an unknown id the state is unchanged. */
  lemma UpdateChallengeReplaces(s: AppState, c: Challenge)
    ensures var r := Reduce(s, UpdateChallenge(c));
      && |r.challenges| == |s.challenges| && r.categories == s.categories
      && (forall i :: 0 <= i < |s.challenges| && s.challenges[i].id == c.id ==> r.challenges[i] == c)
      && (forall i :: 0 <= i < |s.challenges| && s.challenges[i].id != c.id ==> r.challenges[i] == s.challenges[i])
      && (!HasKey(s.challenges, ChallengeId, c.id) ==> r == s)
  {
    ReplaceKeepsKeys(s.challenges, ChallengeId, c);
  }

  /** Updating a category replaces exactly the categories with the payload's
      id, in place; with an unknown id the state is unchanged. */
  lemma UpdateCategoryReplaces(s: AppState, c: Category)
    ensures var r := Reduce(s, UpdateCategory(c));
      && |r.categories| == |s.categories| && r.challenges == s.challenges
      && (forall i :: 0 <= i < |s.categories| && s.categories[i].id == c.id ==> r.categories[i] == c)
      && (forall i :: 0 <= i < |s.categories| && s.categories[i].id != c.id ==> r.categories[i] == s.categories[i])
      && (!HasKey(s.categories, CategoryId, c.id) ==> r == s)
  {
    ReplaceKeepsKeys(s.categories, CategoryId, c);
  }

  /** Deleting a challenge removes every challenge with that id, keeps the
      others in their original order, and leaves the categories alone; an
      unknown id changes nothing. */
  lemma DeleteChallengeRemoves(s: AppState, id: string)
    ensures var r := Reduce(s, DeleteChallenge(id));
      && r.categories == s.categories
      && (forall c :: c in r.challenges <==> c in s.challenges && c.id != id)
      && (forall a, b :: s.challenges == a + b ==>
            r.challenges == Without(a, ChallengeId, id) + Without(b, ChallengeId, id))
      && (!HasKey(s.challenges, ChallengeId, id) ==> r == s)
  {
    forall a, b | s.challenges == a + b
      ensures Without(s.challenges, ChallengeId, id) == Without(a, ChallengeId, id) + Without(b, ChallengeId, id)
    {
      WithoutAppend(a, b, ChallengeId, id);
    }
  }

  /** Moving a challenge changes the date of the challenges with that id and
      nothing else; moving onto the date they already have is a no-op. */
  lemma MoveChallengeChangesOnlyDate(s: AppState, id: string, newDate: Day)
    ensures var r := Reduce(s, MoveChallenge(id, newDate));
      && r.categories == s.categories && |r.challenges| == |s.challenges|
      && (forall i :: 0 <= i < |s.challenges| && s.challenges[i].id == id ==>
            r.challenges[i] == s.challenges[i].(date := newDate))
      && (forall i :: 0 <= i < |s.challenges| && s.challenges[i].id != id ==>
            r.challenges[i] == s.challenges[i])
      && ((forall i :: 0 <= i < |s.challenges| && s.challenges[i].id == id ==>
            s.challenges[i].date == newDate) ==> r == s)
  {
    var r := Reduce(s, MoveChallenge(id, newDate));
    if forall i :: 0 <= i < |s.challenges| && s.challenges[i].id == id ==> s.challenges[i].date == newDate {
      assert r.challenges == s.challenges;
    }
  }

  /** The id a category deletion gives to the orphaned challenges: that of
      the first category, in list order, that is not the deleted one, or ""
      when every category is the deleted one. */
  ghost predicate IsFallbackCategory(cats: seq<Category>, deleted: string, target: string)
  {
    || (target == "" && forall j :: 0 <= j < |cats| ==> cats[j].id == deleted)
    || (exists j :: 0 <= j < |cats| && cats[j].id != deleted && cats[j].id == target
                    && forall m :: 0 <= m < j ==> cats[m].id == deleted)
  }

  /** A deleted category at the head of the list does not change which
      category the orphans go to. */
  lemma FallbackSkipsDeletedHead(cats: seq<Category>, deleted: string, target: string)
    requires |cats| > 0 && cats[0].id == deleted
    requires IsFallbackCategory(cats[1..], deleted, target)
    ensures IsFallbackCategory(cats, deleted, target)
  {
    var tail := cats[1..];
    assert forall m :: 0 < m < |cats| ==> cats[m] == tail[m - 1];
    if exists j :: 0 <= j < |tail| && tail[j].id != deleted && tail[j].id == target
                   && forall m :: 0 <= m < j ==> tail[m].id == deleted {
      var j :| 0 <= j < |tail| && tail[j].id != deleted && tail[j].id == target
               && forall m :: 0 <= m < j ==> tail[m].id == deleted;
      assert cats[j + 1] == tail[j];
    }
  }

  /** The head of the filtered category list is the first survivor. */
  lemma {:induction false} FirstRemainingCategory(cats: seq<Category>, deleted: string)
    ensures var remaining := Without(cats, CategoryId, deleted);
      IsFallbackCategory(cats, deleted, if |remaining| > 0 then remaining[0].id else "")
    decreases |cats|
  {
    if |cats| > 0 {
      var tail := cats[1..];
      var rest := Without(tail, CategoryId, deleted);
      if cats[0].id == deleted {
        assert Without(cats, CategoryId, deleted) == rest;
        FirstRemainingCategory(tail, deleted);
        FallbackSkipsDeletedHead(cats, deleted, if |rest| > 0 then rest[0].id else "");
      } else {
        assert Without(cats, CategoryId, deleted)[0] == cats[0];
      }
    }
  }

  /** Deleting a category removes every category with that id (the others
      keep their order), moves each challenge of that category to the first
      remaining category, or to "" when none remains, and changes no other
      challenge. */
  lemma DeleteCategoryReassigns(s: AppState, id: string)
    ensures var r := Reduce(s, DeleteCategory(id));
      && r.categories == Without(s.categories, CategoryId, id)
      && !HasKey(r.categories, CategoryId, id)
      && (forall c :: c in r.categories <==> c in s.categories && c.id != id)
      && |r.challenges| == |s.challenges|
      && (forall i :: 0 <= i < |s.challenges| && s.challenges[i].categoryId == id ==>
            && r.challenges[i] == s.challenges[i].(categoryId := r.challenges[i].categoryId)
            && IsFallbackCategory(s.categories, id, r.challenges[i].categoryId))
      && (forall i :: 0 <= i < |s.challenges| && s.challenges[i].categoryId != id ==>
            r.challenges[i] == s.challenges[i])
  {
    FirstRemainingCategory(s.categories, id);
  }

  /** After a category deletion no challenge still names the deleted id,
      except in the one case where no category is left and the deleted id was
      the empty sentinel itself. */
  lemma DeleteCategoryLeavesNoOrphan(s: AppState, id: string)
    ensures var r := Reduce(s, DeleteCategory(id));
      forall i :: 0 <= i < |r.challenges| ==>
        r.challenges[i].categoryId != id || (id == "" && r.categories == [])
  {
    var r := Reduce(s, DeleteCategory(id));
    var remaining := Without(s.categories, CategoryId, id);
    if |remaining| > 0 {
      assert remaining[0] in remaining;
    }
  }

  /** A category deletion keeps every challenge pointing at an existing
      category, provided some category survives it. */
  lemma DeleteCategoryKeepsIntegrity(s: AppState, id: string)
    requires RefIntegrity(s)
    requires exists j :: 0 <= j < |s.categories| && s.categories[j].id != id
    ensures RefIntegrity(Reduce(s, DeleteCategory(id)))
  {
    var r := Reduce(s, DeleteCategory(id));
    var remaining := Without(s.categories, CategoryId, id);
    var j :| 0 <= j < |s.categories| && s.categories[j].id != id;
    assert s.categories[j] in remaining;
    assert remaining[0] in remaining;
    forall i | 0 <= i < |r.challenges|
      ensures HasKey(r.categories, CategoryId, r.challenges[i].categoryId)
    {
      if s.challenges[i].categoryId == id {
        assert CategoryId(remaining[0]) == r.challenges[i].categoryId;
      } else {
        var k :| 0 <= k < |s.categories| && CategoryId(s.categories[k]) == s.challenges[i].categoryId;
        assert s.categories[k] in remaining;
        var m :| 0 <= m < |remaining| && remaining[m] == s.categories[k];
      }
    }
  }

  // ---------------------------------------------------------------------
  // Invariants across all commands
  // ---------------------------------------------------------------------

  /** What a command must satisfy for the integrity invariant to survive it:
      new or updated challenges name an existing category, and a category
      deletion leaves some category behind. */
  predicate KeepsReferences(s: AppState, a: Action)
  {
    match a
    case AddChallenge(c) => HasKey(s.categories, CategoryId, c.categoryId)
    case UpdateChallenge(c) => HasKey(s.categories, CategoryId, c.categoryId)
    case DeleteCategory(id) => exists j :: 0 <= j < |s.categories| && s.categories[j].id != id
    case _ => true
  }

  /** Fresh ids: an added challenge or category does not reuse an id in use. */
  predicate UsesFreshId(s: AppState, a: Action)
  {
    match a
    case AddChallenge(c) => !HasKey(s.challenges, ChallengeId, c.id)
    case AddCategory(c) => !HasKey(s.categories, CategoryId, c.id)
    case _ => true
  }

  /** Every command keeps ids unique, as long as additions use fresh ids. */
  lemma ReduceKeepsUniqueIds(s: AppState, a: Action)
    requires UniqueIds(s) && UsesFreshId(s, a)
    ensures UniqueIds(Reduce(s, a))
  {
    match a
    case AddChallenge(c) => AppendFreshKeepsDistinct(s.challenges, ChallengeId, c);
    case UpdateChallenge(c) => ReplaceKeepsKeys(s.challenges, ChallengeId, c);
    case DeleteChallenge(id) => WithoutKeepsDistinct(s.challenges, ChallengeId, id);
    case MoveChallenge(id, d) =>
      var r := Reduce(s, a);
      assert forall i :: 0 <= i < |s.challenges| ==> r.challenges[i].id == s.challenges[i].id;
    case AddCategory(c) => AppendFreshKeepsDistinct(s.categories, CategoryId, c);
    case UpdateCategory(c) => ReplaceKeepsKeys(s.categories, CategoryId, c);
    case DeleteCategory(id) => WithoutKeepsDistinct(s.categories, CategoryId, id);
  }

  /** Every command keeps each challenge pointing at an existing category, as
      long as it respects `KeepsReferences`. */
  lemma ReduceKeepsIntegrity(s: AppState, a: Action)
    requires RefIntegrity(s) && KeepsReferences(s, a)
    ensures RefIntegrity(Reduce(s, a))
  {
    var r := Reduce(s, a);
    match a
    case AddChallenge(c) =>
      assert forall i :: 0 <= i < |s.challenges| ==> r.challenges[i] == s.challenges[i];
    case UpdateChallenge(c) =>
    case DeleteChallenge(id) =>
      forall i | 0 <= i < |r.challenges|
        ensures HasKey(r.categories, CategoryId, r.challenges[i].categoryId)
      {
        assert r.challenges[i] in s.challenges;
        var k :| 0 <= k < |s.challenges| && s.challenges[k] == r.challenges[i];
      }
    case MoveChallenge(id, d) =>
      assert forall i :: 0 <= i < |s.challenges| ==> r.challenges[i].categoryId == s.challenges[i].categoryId;
    case AddCategory(c) =>
      forall i | 0 <= i < |r.challenges|
        ensures HasKey(r.categories, CategoryId, r.challenges[i].categoryId)
      {
        var k :| 0 <= k < |s.categories| && CategoryId(s.categories[k]) == s.challenges[i].categoryId;
        assert r.categories[k] == s.categories[k];
      }
    case UpdateCategory(c) => ReplaceKeepsKeys(s.categories, CategoryId, c);
    case DeleteCategory(id) => DeleteCategoryKeepsIntegrity(s, id);
  }

  /** A command that names an id the state does not know. */
  predicate TargetsUnknownId(s: AppState, a: Action)
  {
    match a
    case UpdateChallenge(c) => !HasKey(s.challenges, ChallengeId, c.id)
    case DeleteChallenge(id) => !HasKey(s.challenges, ChallengeId, id)
    case MoveChallenge(id, _) => !HasKey(s.challenges, ChallengeId, id)
    case UpdateCategory(c) => !HasKey(s.categories, CategoryId, c.id)
    case DeleteCategory(id) =>
      !HasKey(s.categories, CategoryId, id)
      && forall i :: 0 <= i < |s.challenges| ==> s.challenges[i].categoryId != id
    case _ => false
  }

  /** Update, delete and move commands on an unknown id leave the state
      unchanged. For a category deletion, "unknown" must also mean that no
      challenge still names that id. */
  lemma UnknownIdIsNoOp(s: AppState, a: Action)
    requires TargetsUnknownId(s, a)
    ensures Reduce(s, a) == s
  {
    match a
    case UpdateChallenge(c) => UpdateChallengeReplaces(s, c);
    case DeleteChallenge(id) =>
    case MoveChallenge(id, d) =>
      assert Reduce(s, a).challenges == s.challenges;
    case UpdateCategory(c) => UpdateCategoryReplaces(s, c);
    case DeleteCategory(id) =>
      assert Reduce(s, a).challenges == s.challenges;
  }

  /** With referential integrity, an unknown category id is named by no
      challenge, so deleting it is a no-op. */
  lemma DeleteUnknownCategoryIsNoOp(s: AppState, id: string)
    requires RefIntegrity(s) && !HasKey(s.categories, CategoryId, id)
    ensures Reduce(s, DeleteCategory(id)) == s
  {
    forall i | 0 <= i < |s.challenges| ensures s.challenges[i].categoryId != id {
      var k :| 0 <= k < |s.categories| && CategoryId(s.categories[k]) == s.challenges[i].categoryId;
    }
    UnknownIdIsNoOp(s, DeleteCategory(id));
  }

  /** Exactly when deleting an unknown category id is a no-op: no challenge
      names the id, or no category is left and the id is "" itself, so the
      orphans are "moved" to the id they already have. */
  lemma DeleteUnknownCategoryNoOpExactly(s: AppState, id: string)
    requires !HasKey(s.categories, CategoryId, id)
    ensures Reduce(s, DeleteCategory(id)) == s
            <==> (forall i :: 0 <= i < |s.challenges| ==> s.challenges[i].categoryId != id)
                 || (id == "" && s.categories == [])
  {
    var r := Reduce(s, DeleteCategory(id));
    var remaining := Without(s.categories, CategoryId, id);
    assert remaining == s.categories;
    if id == "" && s.categories == [] {
      assert r.challenges == s.challenges;
    } else if forall i :: 0 <= i < |s.challenges| ==> s.challenges[i].categoryId != id {
      assert r.challenges == s.challenges;
    } else {
      var i :| 0 <= i < |s.challenges| && s.challenges[i].categoryId == id;
      if |remaining| > 0 {
        assert remaining[0] in remaining;
      }
      assert r.challenges[i].categoryId != id;
    }
  }

  /** Without integrity the no-op can fail: a challenge that names a missing
      category is moved to the first category when that id is "deleted". */
  lemma DeleteDanglingCategoryIsNotNoOp()
    ensures var s := AppState([Challenge("c", "t", "x", 0, false, None)], [Category("a", "n", "#000000")]);
      !HasKey(s.categories, CategoryId, "x") && Reduce(s, DeleteCategory("x")) != s
  {
    var s := AppState([Challenge("c", "t", "x", 0, false, None)], [Category("a", "n", "#000000")]);
    var r := Reduce(s, DeleteCategory("x"));
    assert s.categories[0].id != "x";
    assert r.challenges[0].categoryId == "a";
  }

  // ---------------------------------------------------------------------
  // Lookup
  // ---------------------------------------------------------------------

  /** `challenges.find(c => c.date === date) || null`: the first challenge in
      list order on that date, or nothing when there is none. */
  function FindByDate(cs: seq<Challenge>, date: Day): (r: Option<Challenge>)
    ensures r.None? <==> forall i :: 0 <= i < |cs| ==> cs[i].date != date
    ensures r.Some? ==> exists i :: 0 <= i < |cs| && cs[i] == r.value && cs[i].date == date
                                    && forall j :: 0 <= j < i ==> cs[j].date != date
    decreases |cs|
  {
    if |cs| == 0 then None
    else if cs[0].date == date then Some(cs[0])
    else
      var r := FindByDate(cs[1..], date);
      assert forall i :: 0 < i < |cs| ==> cs[i] == cs[1..][i - 1];
      r
  }

  // ---------------------------------------------------------------------
  // The provider: holds the current state and replaces it on each dispatch
  // ---------------------------------------------------------------------

  class ChallengeProvider {
    var state: AppState

    /** Starts from the saved state when there is one, else from the seed. */
    constructor (saved: Option<AppState>)
      ensures state == (if saved.Some? then saved.value else InitialState)
    {
      state := if saved.Some? then saved.value else InitialState;
    }

    method Dispatch(a: Action)
      modifies this
      ensures state == Reduce(old(state), a)
    {
      state := Reduce(state, a);
    }

    /** Adds a challenge under `freshId`, which the caller guarantees is not
        in use (the planner draws a random UUID). */
    method AddChallenge(draft: ChallengeDraft, freshId: string)
      requires !HasKey(state.challenges, ChallengeId, freshId)
      modifies this
      ensures state == Reduce(old(state), Action.AddChallenge(draft.WithId(freshId)))
      ensures state.challenges == old(state.challenges) + [draft.WithId(freshId)]
      ensures UniqueIds(old(state)) ==> UniqueIds(state)
      ensures (RefIntegrity(old(state)) && HasKey(old(state).categories, CategoryId, draft.categoryId))
              ==> RefIntegrity(state)
    {
      var a := Action.AddChallenge(draft.WithId(freshId));
      if UniqueIds(state) { ReduceKeepsUniqueIds(state, a); }
      if RefIntegrity(state) && KeepsReferences(state, a) { ReduceKeepsIntegrity(state, a); }
      Dispatch(a);
    }

    method UpdateChallenge(c: Challenge)
      modifies this
      ensures state == Reduce(old(state), Action.UpdateChallenge(c))
      ensures UniqueIds(old(state)) ==> UniqueIds(state)
      ensures !HasKey(old(state).challenges, ChallengeId, c.id) ==> state == old(state)
    {
      var a := Action.UpdateChallenge(c);
      if UniqueIds(state) { ReduceKeepsUniqueIds(state, a); }
      UpdateChallengeReplaces(state, c);
      Dispatch(a);
    }

    method DeleteChallenge(id: string)
      modifies this
      ensures state == Reduce(old(state), Action.DeleteChallenge(id))
      ensures UniqueIds(old(state)) ==> UniqueIds(state)
      ensures RefIntegrity(old(state)) ==> RefIntegrity(state)
    {
      var a := Action.DeleteChallenge(id);
      if UniqueIds(state) { ReduceKeepsUniqueIds(state, a); }
      if RefIntegrity(state) { ReduceKeepsIntegrity(state, a); }
      Dispatch(a);
    }

    method MoveChallenge(id: string, newDate: Day)
      modifies this
      ensures state == Reduce(old(state), Action.MoveChallenge(id, newDate))
      ensures UniqueIds(old(state)) ==> UniqueIds(state)
      ensures RefIntegrity(old(state)) ==> RefIntegrity(state)
    {
      var a := Action.MoveChallenge(id, newDate);
      if UniqueIds(state) { ReduceKeepsUniqueIds(state, a); }
      if RefIntegrity(state) { ReduceKeepsIntegrity(state, a); }
      Dispatch(a);
    }

    /** Adds a category under `freshId`, which the caller guarantees is not
        in use (the planner draws a random UUID). */
    method AddCategory(draft: CategoryDraft, freshId: string)
      requires !HasKey(state.categories, CategoryId, freshId)
      modifies this
      ensures state == Reduce(old(state), Action.AddCategory(draft.WithId(freshId)))
      ensures state.categories == old(state.categories) + [draft.WithId(freshId)]
      ensures UniqueIds(old(state)) ==> UniqueIds(state)
      ensures RefIntegrity(old(state)) ==> RefIntegrity(state)
    {
      var a := Action.AddCategory(draft.WithId(freshId));
      if UniqueIds(state) { ReduceKeepsUniqueIds(state, a); }
      if RefIntegrity(state) { ReduceKeepsIntegrity(state, a); }
      Dispatch(a);
    }

    method UpdateCategory(c: Category)
      modifies this
      ensures state == Reduce(old(state), Action.UpdateCategory(c))
      ensures UniqueIds(old(state)) ==> UniqueIds(state)
      ensures RefIntegrity(old(state)) ==> RefIntegrity(state)
    {
      var a := Action.UpdateCategory(c);
      if UniqueIds(state) { ReduceKeepsUniqueIds(state, a); }
      if RefIntegrity(state) { ReduceKeepsIntegrity(state, a); }
      Dispatch(a);
    }

    method DeleteCategory(id: string)
      modifies this
      ensures state == Reduce(old(state), Action.DeleteCategory(id))
      ensures UniqueIds(old(state)) ==> UniqueIds(state)
      ensures (RefIntegrity(old(state))
               && exists j :: 0 <= j < |old(state).categories| && old(state).categories[j].id != id)
              ==> RefIntegrity(state)
    {
      var a := Action.DeleteCategory(id);
      if UniqueIds(state) { ReduceKeepsUniqueIds(state, a); }
      if RefIntegrity(state) && KeepsReferences(state, a) { ReduceKeepsIntegrity(state, a); }
      Dispatch(a);
    }

    /** The first challenge in the current state on `date`, if any. */
    function GetChallengeForDate(date: Day): (r: Option<Challenge>)
      reads this
      ensures r.None? <==> forall i :: 0 <= i < |state.challenges| ==> state.challenges[i].date != date
      ensures r.Some? ==> exists i :: 0 <= i < |state.challenges| && state.challenges[i] == r.value
                                      && state.challenges[i].date == date
                                      && forall j :: 0 <= j < i ==> state.challenges[j].date != date
    {
      FindByDate(state.challenges, date)
    }
  }
}
