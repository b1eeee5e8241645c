/**
 * The excuse history store and the generate flow of the main page: form
 * resolution, prepend on success, favourite toggle, delete, and the
 * favourites-only view.
 */
module App {
  import opened Types
  import opened Arrays
  import GeminiService

  /** The option that switches a select over to its free-text field. */
  const Custom := "Custom..."

  /** The form as the page holds it: four selections, their free-text fields, and the detail. */
  datatype Form = Form(
    selectedSituation: string, customSituation: string,
    selectedRecipient: string, customRecipient: string,
    selectedReason: string, customReason: string,
    selectedTone: string, customTone: string,
    additionalDetails: string)

  function Resolve(selected: string, custom: string): string {
    if selected == Custom then custom else selected
  }

  /**
   * The request `handleGenerate` builds: each field is the free text when
   * its selection is "Custom...", the selection otherwise, and the detail
   * is passed on as typed (possibly empty).
   */
  function ResolveRequest(form: Form): (req: ExcuseRequest)
    ensures req.situation == (if form.selectedSituation == Custom then form.customSituation else form.selectedSituation)
    ensures req.recipient == (if form.selectedRecipient == Custom then form.customRecipient else form.selectedRecipient)
    ensures req.reasonType == (if form.selectedReason == Custom then form.customReason else form.selectedReason)
    ensures req.tone == (if form.selectedTone == Custom then form.customTone else form.selectedTone)
    ensures req.additionalDetails == Some(form.additionalDetails)
  {
    ExcuseRequest(
      Resolve(form.selectedSituation, form.customSituation),
      Resolve(form.selectedRecipient, form.customRecipient),
      Resolve(form.selectedReason, form.customReason),
      Resolve(form.selectedTone, form.customTone),
      Some(form.additionalDetails))
  }

  /** One record with its favourite flag flipped when its id matches. */
  function Flip(e: GeneratedExcuse, id: string): GeneratedExcuse {
    if e.id == id then e.(isFavorite := Some(!IsFavorite(e))) else e
  }

  /** The list after `toggleFavorite(id)`: `map` of Flip over the records. */
  function Toggled(xs: seq<GeneratedExcuse>, id: string): seq<GeneratedExcuse> {
    if xs == [] then [] else [Flip(xs[0], id)] + Toggled(xs[1..], id)
  }

  /** `deleteExcuse(id)` keeps the records whose id differs. */
  function OtherId(id: string): GeneratedExcuse -> bool {
    (e: GeneratedExcuse) => e.id != id
  }

  /** The list after `deleteExcuse(id)`. */
  function WithoutId(xs: seq<GeneratedExcuse>, id: string): seq<GeneratedExcuse> {
    Filter(xs, OtherId(id))
  }

  /** The list the page shows: everything, or only the favourites. */
  function FavoritesView(xs: seq<GeneratedExcuse>, favoritesOnly: bool): seq<GeneratedExcuse> {
    if favoritesOnly then Filter(xs, IsFavorite) else xs
  }

  /** The record created on a successful generation; new records start as non-favourites. */
  function NewExcuse(id: string, text: string, timestamp: int): (e: GeneratedExcuse)
    ensures e.id == id && e.text == text && e.timestamp == timestamp && !IsFavorite(e)
  {
    GeneratedExcuse(id, text, timestamp, Some(false))
  }

  predicate NoRecordWithId(xs: seq<GeneratedExcuse>, id: string) {
    forall i :: 0 <= i < |xs| ==> xs[i].id != id
  }

  /**
   * Toggling keeps length, order, ids, texts and timestamps; it flips the
   * flag of exactly the records whose id matches and leaves the others
   * untouched.
   */
  lemma {:induction false} ToggledAt(xs: seq<GeneratedExcuse>, id: string, i: int)
    requires 0 <= i < |xs|
    ensures |Toggled(xs, id)| == |xs|
    ensures Toggled(xs, id)[i].id == xs[i].id
    ensures Toggled(xs, id)[i].text == xs[i].text
    ensures Toggled(xs, id)[i].timestamp == xs[i].timestamp
    ensures IsFavorite(Toggled(xs, id)[i]) == (if xs[i].id == id then !IsFavorite(xs[i]) else IsFavorite(xs[i]))
    ensures xs[i].id != id ==> Toggled(xs, id)[i] == xs[i]
  {
    if i > 0 {
      ToggledAt(xs[1..], id, i - 1);
    } else {
      ToggledLength(xs[1..], id);
    }
  }

  lemma {:induction false} ToggledLength(xs: seq<GeneratedExcuse>, id: string)
    ensures |Toggled(xs, id)| == |xs|
  {
    if xs != [] { ToggledLength(xs[1..], id); }
  }

  /** Toggling an id that no record has leaves the list unchanged. */
  lemma {:induction false} ToggledAbsent(xs: seq<GeneratedExcuse>, id: string)
    requires NoRecordWithId(xs, id)
    ensures Toggled(xs, id) == xs
  {
    if xs != [] {
      assert xs[0].id != id;
      ToggledAbsent(xs[1..], id);
    }
  }

  /**
   * Toggling the same id twice restores every favourite flag, reading a
   * missing flag as false, and changes nothing else.
   */
  lemma ToggledTwice(xs: seq<GeneratedExcuse>, id: string)
    ensures |Toggled(Toggled(xs, id), id)| == |xs|
    ensures forall i :: 0 <= i < |xs| ==>
      var e := Toggled(Toggled(xs, id), id)[i];
      e.id == xs[i].id && e.text == xs[i].text && e.timestamp == xs[i].timestamp
      && IsFavorite(e) == IsFavorite(xs[i])
  {
    ToggledLength(xs, id);
    ToggledLength(Toggled(xs, id), id);
    forall i | 0 <= i < |xs|
      ensures var e := Toggled(Toggled(xs, id), id)[i];
        e.id == xs[i].id && e.text == xs[i].text && e.timestamp == xs[i].timestamp
        && IsFavorite(e) == IsFavorite(xs[i])
    {
      ToggledAt(xs, id, i);
      ToggledAt(Toggled(xs, id), id, i);
    }
  }

  /**
   * Deleting keeps exactly the records with a different id, in their
   * original order and with their multiplicity, and drops every record
   * with that id.
   */
  lemma DeleteSpec(xs: seq<GeneratedExcuse>, id: string)
    ensures IsSubsequence(WithoutId(xs, id), xs)
    ensures forall e :: multiset(WithoutId(xs, id))[e] == if e.id != id then multiset(xs)[e] else 0
    ensures forall e | e in WithoutId(xs, id) :: e.id != id
    ensures |WithoutId(xs, id)| == |xs| <==> NoRecordWithId(xs, id)
  {
    FilterSubsequence(xs, OtherId(id));
    FilterCount(xs, OtherId(id));
    FilterMembers(xs, OtherId(id));
    FilterLength(xs, OtherId(id));
  }

  /** Deleting an id that no record has is a no-op. */
  lemma DeleteAbsent(xs: seq<GeneratedExcuse>, id: string)
    requires NoRecordWithId(xs, id)
    ensures WithoutId(xs, id) == xs
  {
    FilterLength(xs, OtherId(id));
  }

  /** Deleting the same id twice is the same as deleting it once. */
  lemma DeleteTwice(xs: seq<GeneratedExcuse>, id: string)
    ensures WithoutId(WithoutId(xs, id), id) == WithoutId(xs, id)
  {
    FilterIdempotent(xs, OtherId(id));
  }

  /**
   * With the filter off the view is the whole list; with it on, the view is
   * the in-order subsequence of favourites: every element is a favourite
   * and every favourite appears, as often as in the list.
   */
  lemma FavoritesViewSpec(xs: seq<GeneratedExcuse>, favoritesOnly: bool)
    ensures !favoritesOnly ==> FavoritesView(xs, favoritesOnly) == xs
    ensures IsSubsequence(FavoritesView(xs, favoritesOnly), xs)
    ensures favoritesOnly ==> forall e | e in FavoritesView(xs, favoritesOnly) :: IsFavorite(e)
    ensures favoritesOnly ==> forall e | e in xs && IsFavorite(e) :: e in FavoritesView(xs, favoritesOnly)
    ensures favoritesOnly ==>
      forall e :: multiset(FavoritesView(xs, favoritesOnly))[e] == if IsFavorite(e) then multiset(xs)[e] else 0
  {
    FilterSubsequence(xs, IsFavorite);
    FilterCount(xs, IsFavorite);
    FilterMembers(xs, IsFavorite);
    if !favoritesOnly { SubsequenceReflexive(xs); }
  }

  lemma {:induction false} SubsequenceReflexive<T>(xs: seq<T>)
    ensures IsSubsequence(xs, xs)
  {
    if xs != [] {
      SubsequenceReflexive(xs[1..]);
    }
  }

  /**
   * The main page's state: the loading flag, the favourites-only switch and
   * the history list, newest first.
   */
  class ExcuseApp {
    var loading: bool
    var showFavoritesOnly: bool
    var excuses: seq<GeneratedExcuse>

    /** The state before storage is read: idle, showing everything, nothing stored. */
    constructor ()
      ensures !loading && !showFavoritesOnly && excuses == []
    {
      loading := false;
      showFavoritesOnly := false;
      excuses := [];
    }

    /**
     * Restoring the saved history: `parsed` is the decoded list, or None when
     * nothing is saved or it fails to decode; then the list stays as it was.
     */
    method Restore(parsed: Option<seq<GeneratedExcuse>>)
      modifies this
      ensures excuses == (if parsed.Some? then parsed.value else old(excuses))
      ensures loading == old(loading) && showFavoritesOnly == old(showFavoritesOnly)
    {
      if parsed.Some? {
        excuses := parsed.value;
      }
    }

    /** Start of `handleGenerate`: set loading and build the request from the form. */
    method BeginGenerate(form: Form) returns (req: ExcuseRequest)
      modifies this
      ensures loading
      ensures req == ResolveRequest(form)
      ensures excuses == old(excuses) && showFavoritesOnly == old(showFavoritesOnly)
    {
      loading := true;
      req := ResolveRequest(form);
    }

    /**
     * The generation succeeded with the model's text `response`: a new
     * non-favourite record carrying the (never empty) excuse goes in front,
     * the rest of the list is untouched, the filter is switched off and
     * loading ends. The id and timestamp come from the caller.
     */
    method CompleteGenerate(response: Option<string>, id: string, timestamp: int)
      modifies this
      ensures excuses == [NewExcuse(id, GeminiService.ExcuseReply(response), timestamp)] + old(excuses)
      ensures |excuses| == |old(excuses)| + 1 && excuses[1..] == old(excuses)
      ensures excuses[0].text != "" && !IsFavorite(excuses[0])
      ensures !showFavoritesOnly && !loading
    {
      var text := GeminiService.ExcuseReply(response);
      excuses := [NewExcuse(id, text, timestamp)] + excuses;
      showFavoritesOnly := false;
      loading := false;
    }

    /** The generation failed: only the loading flag changes. */
    method FailGenerate()
      modifies this
      ensures !loading
      ensures excuses == old(excuses) && showFavoritesOnly == old(showFavoritesOnly)
    {
      loading := false;
    }

    method ToggleFavorite(id: string)
      modifies this
      ensures excuses == Toggled(old(excuses), id)
      ensures |excuses| == |old(excuses)|
      ensures NoRecordWithId(old(excuses), id) ==> excuses == old(excuses)
      ensures loading == old(loading) && showFavoritesOnly == old(showFavoritesOnly)
    {
      ToggledLength(excuses, id);
      if NoRecordWithId(excuses, id) {
        ToggledAbsent(excuses, id);
      }
      excuses := Toggled(excuses, id);
    }

    method DeleteExcuse(id: string)
      modifies this
      ensures excuses == WithoutId(old(excuses), id)
      ensures forall e | e in excuses :: e.id != id
      ensures NoRecordWithId(old(excuses), id) ==> excuses == old(excuses)
      ensures loading == old(loading) && showFavoritesOnly == old(showFavoritesOnly)
    {
      DeleteSpec(excuses, id);
      if NoRecordWithId(excuses, id) {
        DeleteAbsent(excuses, id);
      }
      excuses := WithoutId(excuses, id);
    }

    /** The favourites button flips the filter and nothing else. */
    method FlipFilter()
      modifies this
      ensures showFavoritesOnly == !old(showFavoritesOnly)
      ensures excuses == old(excuses) && loading == old(loading)
    {
      showFavoritesOnly := !showFavoritesOnly;
    }

    /** `filteredExcuses`: a read of the state, which it cannot change. */
    function FilteredExcuses(): (view: seq<GeneratedExcuse>)
      reads this
      ensures IsSubsequence(view, excuses)
      ensures !showFavoritesOnly ==> view == excuses
      ensures showFavoritesOnly ==> forall e | e in view :: IsFavorite(e)
      ensures showFavoritesOnly ==> forall e | e in excuses && IsFavorite(e) :: e in view
      ensures showFavoritesOnly ==> forall e :: multiset(view)[e] == if IsFavorite(e) then multiset(excuses)[e] else 0
    {
      FavoritesViewSpec(excuses, showFavoritesOnly);
      FavoritesView(excuses, showFavoritesOnly)
    }
  }
}
