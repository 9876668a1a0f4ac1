/** The gallery of saved memories: loading the list, marking a memory as a
    favourite, deleting one, and the text shown for the list and for each entry. */
module Gallery {
  import opened Wrappers
  import opened Text
  import opened Records

  // ---------------------------------------------------------------------------
  // List updates
  // ---------------------------------------------------------------------------

  /** The list after a favourite toggle: every memory with the id gets
      `is_favorite` set to the negation of `current`, the rest stay as they are. */
  function ToggleFavorite(memories: seq<Memory>, id: string, current: bool): (r: seq<Memory>)
    ensures |r| == |memories|
    ensures forall i :: 0 <= i < |r| ==>
              r[i] == if memories[i].id == id then memories[i].(isFavorite := !current) else memories[i]
    decreases |memories|
  {
    if |memories| == 0 then []
    else
      var m := memories[0];
      var head := if m.id == id then m.(isFavorite := !current) else m;
      [head] + ToggleFavorite(memories[1..], id, current)
  }

  /** The memories carrying `id`. */
  function CountWithId(memories: seq<Memory>, id: string): (n: nat)
    ensures n <= |memories|
    ensures n == 0 <==> forall i :: 0 <= i < |memories| ==> memories[i].id != id
    decreases |memories|
  {
    if |memories| == 0 then 0
    else (if memories[0].id == id then 1 else 0) + CountWithId(memories[1..], id)
  }

  /** `a` is `b` with some entries left out, the rest in their original order. */
  ghost predicate IsSubsequence(a: seq<Memory>, b: seq<Memory>)
    decreases |b|
  {
    if |a| == 0 then true
    else if |b| == 0 then false
    else (a[0] == b[0] && IsSubsequence(a[1..], b[1..])) || IsSubsequence(a, b[1..])
  }

  /** The list after a deletion: the memories without the id, in their order. */
  function DeleteMemory(memories: seq<Memory>, id: string): (r: seq<Memory>)
    ensures forall i :: 0 <= i < |r| ==> r[i].id != id
    ensures forall m :: m in memories && m.id != id ==> m in r
    ensures forall m :: m in r ==> m in memories
    ensures |r| == |memories| - CountWithId(memories, id)
    ensures IsSubsequence(r, memories)
    decreases |memories|
  {
    if |memories| == 0 then []
    else
      var rest := DeleteMemory(memories[1..], id);
      if memories[0].id == id then
        rest
      else
        var r := [memories[0]] + rest;
        assert r[1..] == rest;
        r
  }

  /** A list without the id is left unchanged by a toggle or a deletion of it. */
  lemma {:induction false} AbsentIdChangesNothing(memories: seq<Memory>, id: string, current: bool)
    requires forall i :: 0 <= i < |memories| ==> memories[i].id != id
    ensures ToggleFavorite(memories, id, current) == memories
    ensures DeleteMemory(memories, id) == memories
    decreases |memories|
  {
    if |memories| > 0 {
      AbsentIdChangesNothing(memories[1..], id, current);
      assert memories == [memories[0]] + memories[1..];
    }
  }

  /** Toggling back with the new value restores the list, when every memory
      with the id was marked `current` to begin with. */
  lemma ToggleBack(memories: seq<Memory>, id: string, current: bool)
    requires forall i :: 0 <= i < |memories| && memories[i].id == id ==> memories[i].isFavorite == current
    ensures ToggleFavorite(ToggleFavorite(memories, id, current), id, !current) == memories
  {
  }

  /** Deleting a memory makes any earlier toggle of it irrelevant. */
  lemma {:induction false} DeleteAfterToggle(memories: seq<Memory>, id: string, current: bool)
    ensures DeleteMemory(ToggleFavorite(memories, id, current), id) == DeleteMemory(memories, id)
    decreases |memories|
  {
    if |memories| > 0 {
      DeleteAfterToggle(memories[1..], id, current);
      var t := ToggleFavorite(memories, id, current);
      assert t[1..] == ToggleFavorite(memories[1..], id, current);
    }
  }

  // ---------------------------------------------------------------------------
  // The gallery's state
  // ---------------------------------------------------------------------------

  datatype GalleryState = GalleryState(memories: seq<Memory>, loading: bool, error: Option<string>)

  /** The gallery opens empty and loading. */
  const InitialGallery := GalleryState([], true, None)

  const LoadFailedMessage := "Failed to load your memories"

  /** Loading for the signed-in user (`None` when signed out). The backend
      answers with the user's memories, newest first, possibly `null`. Loading
      always stops; a failure keeps the list and shows the message. */
  function LoadMemories(st: GalleryState, user: Option<string>, response: Response<Option<seq<Memory>>>): (s: GalleryState)
    ensures !s.loading
    ensures user.None? ==> s == st.(loading := false)
    ensures user.Some? && response.Ok? ==> s.memories == response.data.GetOr([]) && s.error == st.error
    ensures user.Some? && response.Ok? && response.data.None? ==> s.memories == []
    ensures user.Some? && !response.Ok? ==> s.memories == st.memories && s.error == Some(LoadFailedMessage)
  {
    if user.None? then
      st.(loading := false)
    else
      match response
      case Ok(data) => st.(memories := data.GetOr([]), loading := false)
      case _ => st.(error := Some(LoadFailedMessage), loading := false)
  }

  /** The gallery's first load: a signed-in user sees exactly the memories the
      backend returns (none for a `null` answer), or no memories and the error;
      a signed-out visitor sees no memories and no error. */
  lemma FirstLoad(user: Option<string>, response: Response<Option<seq<Memory>>>)
    ensures var s := LoadMemories(InitialGallery, user, response);
            && (user.None? ==> s == GalleryState([], false, None))
            && (user.Some? && response.Ok? ==> s == GalleryState(response.data.GetOr([]), false, None))
            && (user.Some? && !response.Ok? ==> s == GalleryState([], false, Some(LoadFailedMessage)))
  {
  }

  /** Loading again with the same answer changes nothing more. */
  lemma ReloadIsIdempotent(st: GalleryState, user: Option<string>, response: Response<Option<seq<Memory>>>)
    ensures LoadMemories(LoadMemories(st, user, response), user, response) == LoadMemories(st, user, response)
  {
  }

  /** A favourite toggle: the backend is updated first and the list changes
      only if it reports success. */
  function ApplyToggle(st: GalleryState, id: string, current: bool, response: Response<()>): (s: GalleryState)
    ensures response.Ok? ==> s == st.(memories := ToggleFavorite(st.memories, id, current))
    ensures !response.Ok? ==> s == st
  {
    if response.Ok? then st.(memories := ToggleFavorite(st.memories, id, current)) else st
  }

  const DeleteFailedMessage := "Failed to delete memory"

  /** What a deletion leaves: the gallery, and the alert shown, if any. */
  datatype DeleteResult = DeleteResult(state: GalleryState, alert: Option<string>)

  /** A deletion: nothing happens unless the user confirms; then the backend
      row is deleted first and the entry leaves the list only on success; a
      failure is reported with an alert. */
  function ApplyDelete(st: GalleryState, id: string, confirmed: bool, response: Response<()>): (r: DeleteResult)
    ensures !confirmed ==> r == DeleteResult(st, None)
    ensures confirmed && response.Ok? ==> r == DeleteResult(st.(memories := DeleteMemory(st.memories, id)), None)
    ensures confirmed && !response.Ok? ==> r == DeleteResult(st, Some(DeleteFailedMessage))
  {
    if !confirmed then DeleteResult(st, None)
    else if response.Ok? then DeleteResult(st.(memories := DeleteMemory(st.memories, id)), None)
    else DeleteResult(st, Some(DeleteFailedMessage))
  }

  // ---------------------------------------------------------------------------
  // Text shown in the gallery
  // ---------------------------------------------------------------------------

  /** The noun after the count. */
  function MemoryNoun(count: nat): string {
    if count == 1 then "memory" else "memories"
  }

  /** `<count> saved memory` or `<count> saved memories`. */
  function CountLabel(count: nat): string {
    NatToString(count) + " saved " + MemoryNoun(count)
  }

  /** A short enough word ends `a + t` exactly when it ends `t`. */
  lemma SuffixOfLongTail(w: string, a: string, t: string)
    requires |w| <= |t|
    ensures IsSuffix(w, a + t) <==> IsSuffix(w, t)
  {
  }

  /** The label starts with the count in decimal. */
  lemma CountLabelStartsWithCount(count: nat)
    ensures var shown := CountLabel(count);
            var digits := NatToString(count);
            && |shown| > |digits|
            && shown[..|digits|] == digits
            && DigitsValue(shown[..|digits|]) == count
  {
  }

  /** The words after the count end in "memory" only in the singular. */
  lemma NounTail(count: nat)
    ensures IsSuffix("memory", " saved " + MemoryNoun(count)) <==> count == 1
    ensures IsSuffix("memories", " saved " + MemoryNoun(count)) <==> count != 1
  {
    if count == 1 {
      assert " saved " + MemoryNoun(count) == " saved memory";
      assert " saved memory"[5..] == "d memory";
    } else {
      assert " saved " + MemoryNoun(count) == " saved memories";
      assert " saved memories"[9..] == "mories";
    }
  }

  /** The label uses the singular only for exactly one memory. */
  lemma CountLabelNoun(count: nat)
    ensures IsSuffix("memory", CountLabel(count)) <==> count == 1
    ensures IsSuffix("memories", CountLabel(count)) <==> count != 1
  {
    var tail := " saved " + MemoryNoun(count);
    assert CountLabel(count) == NatToString(count) + tail;
    SuffixOfLongTail("memory", NatToString(count), tail);
    SuffixOfLongTail("memories", NatToString(count), tail);
    NounTail(count);
  }

  /** The maximum number of prompt characters shown for an entry. */
  const PreviewLength := 80

  /** The entry's prompt preview: the first 80 characters, and "..." after
      them when the prompt is longer. */
  function PromptPreview(prompt: string): (preview: string)
    ensures |preview| <= PreviewLength + 3
    ensures |prompt| <= PreviewLength ==> preview == prompt
    ensures |prompt| > PreviewLength ==>
              |preview| == PreviewLength + 3 && preview[..PreviewLength] == prompt[..PreviewLength]
              && preview[PreviewLength..] == "..."
  {
    if |prompt| > PreviewLength then prompt[..PreviewLength] + "..." else prompt
  }
}
