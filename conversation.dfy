/**
 * The conversation log of conversation.ts: an append-only history of utterances with a
 * cached synopsis.  `dirty` says that entries were added since the object was created,
 * `lastUpdated` is the time of the last successful summary (reset to the epoch by every
 * append) and `synopsis` is the cached summary text.  Times are integer milliseconds;
 * the epoch is 0.
 */
module Conversation {
  import opened Options
  import opened Text

  datatype Element = Element(who: string, utterance: string, time: int)

  const SummaryHeader: string := "Past conversation summary: "
  const Epoch: int := 0
  /** Entries needed before the summary trigger looks at the log at all. */
  const MinEntries: nat := 10
  /** The trigger fires when more than this many trailing entries are unsummarised. */
  const MaxUnsummarized: nat := 10
  /** The window the summariser is given. */
  const SummaryWindow: int := 50

  /** JavaScript truthiness of `this.synopsis`: neither null nor the empty string. */
  predicate HasSynopsis(synopsis: Option<string>)
  {
    synopsis.Some? && synopsis.value != ""
  }

  /** The text the renderer starts with. */
  function Prefix(synopsis: Option<string>): string
  {
    if HasSynopsis(synopsis) then SummaryHeader + synopsis.value + "\n\n" else ""
  }

  /** Entries older than this are skipped: the summary time when there is a synopsis. */
  function FilterDate(synopsis: Option<string>, lastUpdated: int): int
  {
    if HasSynopsis(synopsis) then lastUpdated else Epoch
  }

  function Line(e: Element): string
  {
    e.who + ": " + e.utterance + "\n\n"
  }

  /** `Math.max(0, length - lastN)`: the first index the renderer visits. */
  function WindowStart(length: nat, lastN: int): (i: nat)
    ensures i <= length || lastN < 0
    ensures lastN >= 0 ==> i == if length >= lastN then length - lastN else 0
  {
    if length - lastN > 0 then length - lastN else 0
  }

  /** The entries of `s` that are not older than `filter`, in their order. */
  function Kept(s: seq<Element>, filter: int): seq<Element>
  {
    if s == [] then []
    else (if s[0].time < filter then [] else [s[0]]) + Kept(s[1..], filter)
  }

  /** The rendering of a list of entries: one line per entry, in order. */
  function Lines(s: seq<Element>): string
  {
    if s == [] then "" else Line(s[0]) + Lines(s[1..])
  }

  /** The string transformConversationOrGetCachedSynopsis(lastN) returns. */
  function ContextWindow(entries: seq<Element>, synopsis: Option<string>, lastUpdated: int,
                         dirty: bool, lastN: int): string
  {
    var start := WindowStart(|entries|, lastN);
    Prefix(synopsis) +
      if !dirty || start >= |entries| then ""
      else Lines(Kept(entries[start..], FilterDate(synopsis, lastUpdated)))
  }

  /**
   * The trailing entries the summary trigger counts: walking back from the newest entry,
   * it stops at the first entry older than `watermark` or once `budget` entries are counted.
   */
  function Unsummarized(s: seq<Element>, watermark: int, budget: nat): (n: nat)
    ensures n <= budget && n <= |s|
  {
    if s == [] || s[|s| - 1].time < watermark || budget == 0 then 0
    else 1 + Unsummarized(s[..|s| - 1], watermark, budget - 1)
  }

  /** Whether update() starts a summary of a log in this state. */
  predicate SummaryDue(entries: seq<Element>, lastUpdated: int, dirty: bool)
  {
    dirty && |entries| >= MinEntries && Unsummarized(entries, lastUpdated, MaxUnsummarized + 1) > MaxUnsummarized
  }

  lemma {:induction false} KeptAppend(s: seq<Element>, x: Element, filter: int)
    ensures Kept(s + [x], filter) == Kept(s, filter) + (if x.time < filter then [] else [x])
  {
    if s == [] {
      assert [x][1..] == [];
    } else {
      assert (s + [x])[1..] == s[1..] + [x];
      KeptAppend(s[1..], x, filter);
    }
  }

  lemma {:induction false} LinesAppend(a: seq<Element>, b: seq<Element>)
    ensures Lines(a + b) == Lines(a) + Lines(b)
  {
    if a == [] {
      assert a + b == b;
    } else {
      assert (a + b)[1..] == a[1..] + b;
      LinesAppend(a[1..], b);
    }
  }

  /** One step of the renderer's loop: entry `i` adds its line when it is recent enough. */
  lemma RenderStep(s: seq<Element>, start: nat, i: nat, filter: int)
    requires start <= i < |s|
    ensures Lines(Kept(s[start..i + 1], filter))
            == Lines(Kept(s[start..i], filter)) + (if s[i].time < filter then "" else Line(s[i]))
  {
    assert s[start..i + 1] == s[start..i] + [s[i]];
    KeptAppend(s[start..i], s[i], filter);
    LinesAppend(Kept(s[start..i], filter), if s[i].time < filter then [] else [s[i]]);
    assert Lines([s[i]]) == Line(s[i]) + Lines([]);
  }

  /** Kept keeps exactly the entries that are not older than the filter date. */
  lemma {:induction false} KeptMembers(s: seq<Element>, filter: int, e: Element)
    ensures e in Kept(s, filter) <==> e in s && e.time >= filter
  {
    if s != [] {
      KeptMembers(s[1..], filter, e);
      assert s == [s[0]] + s[1..];
    }
  }

  /** When no entry is older than the filter date, every entry of the window is rendered. */
  lemma {:induction false} KeptAll(s: seq<Element>, filter: int)
    requires forall k :: 0 <= k < |s| ==> s[k].time >= filter
    ensures Kept(s, filter) == s
  {
    if s != [] {
      KeptAll(s[1..], filter);
    }
  }

  /** The indices from `from` on whose entries are not older than `filter`, ascending. */
  function Selected(s: seq<Element>, from: nat, filter: int): (idx: seq<nat>)
    ensures forall k :: 0 <= k < |idx| ==> from <= idx[k] < |s|
    ensures forall k, k' :: 0 <= k < k' < |idx| ==> idx[k] < idx[k']
    decreases |s| - from
  {
    if from >= |s| then []
    else (if s[from].time < filter then [] else [from]) + Selected(s, from + 1, filter)
  }

  /** The entries at the given indices, in that order. */
  function Pick(s: seq<Element>, idx: seq<nat>): seq<Element>
    requires forall k :: 0 <= k < |idx| ==> idx[k] < |s|
  {
    seq(|idx|, k requires 0 <= k < |idx| => s[idx[k]])
  }

  lemma {:induction false} SelectedMembers(s: seq<Element>, from: nat, filter: int, i: int)
    ensures i in Selected(s, from, filter) <==> from <= i < |s| && s[i].time >= filter
    decreases |s| - from
  {
    if from < |s| {
      SelectedMembers(s, from + 1, filter, i);
    }
  }

  lemma {:induction false} SelectedKept(s: seq<Element>, from: nat, filter: int)
    requires from <= |s|
    ensures Kept(s[from..], filter) == Pick(s, Selected(s, from, filter))
    decreases |s| - from
  {
    if from < |s| {
      SelectedKept(s, from + 1, filter);
      assert s[from..][1..] == s[from + 1..];
      var head: seq<nat> := if s[from].time < filter then [] else [from];
      PickAppend(s, head, Selected(s, from + 1, filter));
    }
  }

  lemma PickAppend(s: seq<Element>, a: seq<nat>, b: seq<nat>)
    requires forall k :: 0 <= k < |a| ==> a[k] < |s|
    requires forall k :: 0 <= k < |b| ==> b[k] < |s|
    ensures Pick(s, a + b) == Pick(s, a) + Pick(s, b)
  {
    assert forall k :: 0 <= k < |a + b| ==> Pick(s, a + b)[k] == (Pick(s, a) + Pick(s, b))[k];
  }

  /**
   * The lines of a dirty log are those of the entries at the indices `idx`, in ascending
   * order, where an index is listed iff it lies in the last `lastN` positions (from
   * `Math.max(0, length - lastN)` on) and its entry is not older than the filter date.
   */
  lemma WindowByIndex(entries: seq<Element>, synopsis: Option<string>, lastUpdated: int, lastN: int)
    ensures var idx := Selected(entries, WindowStart(|entries|, lastN), FilterDate(synopsis, lastUpdated));
      ContextWindow(entries, synopsis, lastUpdated, true, lastN) == Prefix(synopsis) + Lines(Pick(entries, idx)) &&
      (forall k, k' :: 0 <= k < k' < |idx| ==> idx[k] < idx[k']) &&
      forall i :: i in idx <==> 0 <= i < |entries| && i >= |entries| - lastN &&
                                entries[i].time >= FilterDate(synopsis, lastUpdated)
  {
    var start := WindowStart(|entries|, lastN);
    var filter := FilterDate(synopsis, lastUpdated);
    forall i {
      SelectedMembers(entries, start, filter, i);
    }
    if start < |entries| {
      SelectedKept(entries, start, filter);
    } else {
      assert Selected(entries, start, filter) == [];
      assert Prefix(synopsis) + "" == Prefix(synopsis);
    }
  }

  lemma ContextWindowCases(entries: seq<Element>, synopsis: Option<string>, lastUpdated: int, dirty: bool, lastN: int)
    ensures var start := WindowStart(|entries|, lastN);
      ContextWindow(entries, synopsis, lastUpdated, dirty, lastN) ==
        if !dirty || start >= |entries| then Prefix(synopsis)
        else Prefix(synopsis) + Lines(Kept(entries[start..], FilterDate(synopsis, lastUpdated)))
  {
    assert Prefix(synopsis) + "" == Prefix(synopsis);
  }

  /**
   * The rendered text always starts with the synopsis prefix; without the dirty flag it is
   * only that prefix, which is empty when there is no synopsis.
   */
  lemma ContextWindowPrefix(entries: seq<Element>, synopsis: Option<string>, lastUpdated: int,
                            dirty: bool, lastN: int)
    ensures StartsWith(ContextWindow(entries, synopsis, lastUpdated, dirty, lastN), Prefix(synopsis))
    ensures !dirty ==> ContextWindow(entries, synopsis, lastUpdated, dirty, lastN) == Prefix(synopsis)
    ensures !HasSynopsis(synopsis) ==> Prefix(synopsis) == ""
    ensures HasSynopsis(synopsis) ==> StartsWith(Prefix(synopsis), SummaryHeader + synopsis.value)
  {
  }

  /**
   * Right after an append (dirty, watermark at the epoch), a newest entry that is not older
   * than the filter date is the last line of every window of at least one entry.
   */
  lemma NewestEntryIsLastLine(entries: seq<Element>, e: Element, synopsis: Option<string>, lastN: int)
    requires lastN >= 1 && e.time >= FilterDate(synopsis, Epoch)
    ensures EndsWith(ContextWindow(entries + [e], synopsis, Epoch, true, lastN), Line(e))
  {
    var all := entries + [e];
    var start := WindowStart(|all|, lastN);
    var filter := FilterDate(synopsis, Epoch);
    assert all[start..] == all[start..|all| - 1] + [e];
    KeptAppend(all[start..|all| - 1], e, filter);
    LinesAppend(Kept(all[start..|all| - 1], filter), [e]);
    assert Lines([e]) == Line(e);
  }

  /** The trigger walks all of its budget exactly when the last `budget` entries are recent enough. */
  lemma {:induction false} UnsummarizedFull(s: seq<Element>, watermark: int, budget: nat)
    ensures Unsummarized(s, watermark, budget) == budget <==>
            |s| >= budget && forall k :: |s| - budget <= k < |s| ==> s[k].time >= watermark
  {
    if s == [] || budget == 0 {
    } else if s[|s| - 1].time < watermark {
    } else {
      var p := s[..|s| - 1];
      UnsummarizedFull(p, watermark, budget - 1);
      assert forall k :: 0 <= k < |p| ==> p[k] == s[k];
    }
  }

  /**
   * update() summarises when the log is dirty, holds at least ten entries and its eleven
   * newest entries are all at least as recent as the last summary.
   */
  lemma SummaryDueIff(entries: seq<Element>, lastUpdated: int, dirty: bool)
    ensures SummaryDue(entries, lastUpdated, dirty) <==>
            dirty && |entries| > MaxUnsummarized &&
            forall k :: |entries| - (MaxUnsummarized + 1) <= k < |entries| ==> entries[k].time >= lastUpdated
  {
    UnsummarizedFull(entries, lastUpdated, MaxUnsummarized + 1);
  }

  /** Right after an append (watermark at the epoch) the trigger fires iff the log has at least 11 entries. */
  lemma SummaryDueAfterAppend(entries: seq<Element>)
    requires forall k :: 0 <= k < |entries| ==> entries[k].time >= Epoch
    ensures SummaryDue(entries, Epoch, true) <==> |entries| >= MaxUnsummarized + 1
  {
    SummaryDueIff(entries, Epoch, true);
  }

  /** The rendering built the way the loop builds it, newest entry last. */
  function Rendered(s: seq<Element>, filter: int): string
  {
    if s == [] then ""
    else Rendered(s[..|s| - 1], filter) + if s[|s| - 1].time < filter then "" else Line(s[|s| - 1])
  }

  lemma {:induction false} RenderedIsLinesOfKept(s: seq<Element>, filter: int)
    ensures Rendered(s, filter) == Lines(Kept(s, filter))
  {
    if s != [] {
      var p := s[..|s| - 1];
      RenderedIsLinesOfKept(p, filter);
      RenderStep(s, 0, |s| - 1, filter);
      assert s[0..|s| - 1] == p && s[0..|s|] == s;
    }
  }

  /** The loop of the renderer: append the line of each entry from `start` on that is not older than `filterDate`. */
  method AppendRecent(acm0: string, entries: seq<Element>, start: nat, filterDate: int) returns (acm: string)
    requires start <= |entries|
    ensures acm == acm0 + Lines(Kept(entries[start..], filterDate))
  {
    acm := acm0;
    var i := start;
    assert entries[start..i] == [];
    while i < |entries|
      invariant start <= i <= |entries|
      invariant acm == acm0 + Rendered(entries[start..i], filterDate)
    {
      var element := entries[i];
      ghost var rendered := Rendered(entries[start..i], filterDate);
      assert entries[start..i + 1][..i - start] == entries[start..i];
      if element.time >= filterDate {
        acm := acm + Line(element);
        assert acm == acm0 + (rendered + Line(element));
      } else {
        assert rendered + "" == rendered;
      }
      i := i + 1;
    }
    assert entries[start..i] == entries[start..];
    RenderedIsLinesOfKept(entries[start..], filterDate);
  }

  class CondensedConversation {
    var synopsis: Option<string>
    var lastUpdated: int
    var dirty: bool
    var conversation: seq<Element>

    constructor ()
      ensures synopsis == None && lastUpdated == Epoch && !dirty && conversation == []
    {
      synopsis := None;
      lastUpdated := Epoch;
      dirty := false;
      conversation := [];
    }

    /** Appends at the end, marks the log dirty and moves the watermark back to the epoch. */
    method AddUtterance(element: Element)
      modifies this
      ensures conversation == old(conversation) + [element]
      ensures dirty && lastUpdated == Epoch && synopsis == old(synopsis)
    {
      conversation := conversation + [element];
      dirty := true;
      lastUpdated := Epoch;
    }

    /** The context window for a prompt: synopsis prefix, then the recent entries of the last `lastN`. */
    method TransformConversationOrGetCachedSynopsis(lastN: int) returns (acm: string)
      ensures acm == ContextWindow(conversation, synopsis, lastUpdated, dirty, lastN)
    {
      var entries := conversation;
      acm := "";
      var filterDate := Epoch;
      if HasSynopsis(synopsis) {
        acm := SummaryHeader + synopsis.value + "\n\n";
        filterDate := lastUpdated;
      }
      ghost var prefix := acm;
      assert prefix == Prefix(synopsis) && filterDate == FilterDate(synopsis, lastUpdated);
      if !dirty {
        ContextWindowCases(entries, synopsis, lastUpdated, dirty, lastN);
        return;
      }
      var i := WindowStart(|entries|, lastN);
      if i >= |entries| {
        ContextWindowCases(entries, synopsis, lastUpdated, dirty, lastN);
        return;
      }
      acm := AppendRecent(acm, entries, i, filterDate);
      ContextWindowCases(entries, synopsis, lastUpdated, dirty, lastN);
    }

    /**
     * The periodic trigger.  It returns the 50-entry window sent to the summariser when a
     * summary is started and None when it does nothing; it changes no field (the summary
     * arrives later, through CompleteSummary).
     */
    method Update() returns (request: Option<string>)
      ensures request.Some? <==> SummaryDue(conversation, lastUpdated, dirty)
      ensures request.Some? ==> request.value == ContextWindow(conversation, synopsis, lastUpdated, dirty, SummaryWindow)
    {
      if !dirty || |conversation| < MinEntries {
        return None;
      }
      var unsummarized := 0;
      var i := |conversation| - 1;
      assert conversation[..i + 1] == conversation;
      while i >= 0
        invariant -1 <= i < |conversation|
        invariant unsummarized == |conversation| - 1 - i <= MaxUnsummarized + 1
        invariant unsummarized + Unsummarized(conversation[..i + 1], lastUpdated, MaxUnsummarized + 1 - unsummarized)
                  == Unsummarized(conversation, lastUpdated, MaxUnsummarized + 1)
      {
        assert conversation[..i + 1][..i] == conversation[..i];
        if conversation[i].time < lastUpdated {
          break;
        }
        if unsummarized > MaxUnsummarized {
          break;
        }
        unsummarized := unsummarized + 1;
        i := i - 1;
      }
      if unsummarized > MaxUnsummarized {
        var window := TransformConversationOrGetCachedSynopsis(SummaryWindow);
        return Some(window);
      }
      return None;
    }

    /**
     * The completion of a summary request.  With non-empty content the synopsis becomes the
     * content (passed through the transform when one is given) and the watermark becomes the
     * completion time; otherwise nothing changes.  The dirty flag is never cleared.
     */
    method CompleteSummary(content: Option<string>, synopsisTransform: Option<string -> string>, now: int)
      modifies this
      ensures content.Some? && content.value != "" ==>
                synopsis == Some(if synopsisTransform.Some? then synopsisTransform.value(content.value) else content.value)
                && lastUpdated == now
      ensures !(content.Some? && content.value != "") ==> synopsis == old(synopsis) && lastUpdated == old(lastUpdated)
      ensures dirty == old(dirty) && conversation == old(conversation)
    {
      if content.Some? && content.value != "" {
        synopsis := content;
        if synopsisTransform.Some? {
          synopsis := Some(synopsisTransform.value(synopsis.value));
        }
        lastUpdated := now;
      }
    }

    /** An independent copy: the entry list is a value, so later appends to either object do not reach the other. */
    method Clone() returns (c: CondensedConversation)
      ensures fresh(c)
      ensures c.conversation == conversation && c.synopsis == synopsis
      ensures c.lastUpdated == lastUpdated && c.dirty == dirty
    {
      c := new CondensedConversation();
      c.conversation := conversation;
      c.synopsis := synopsis;
      c.lastUpdated := lastUpdated;
      c.dirty := dirty;
    }
  }

  /** Appending to the original after a clone leaves the clone as it was, and the reverse. */
  method CloneIsIndependent(original: CondensedConversation, e: Element, f: Element)
    returns (snapshot: CondensedConversation)
    modifies original
    ensures original.conversation == old(original.conversation) + [e]
    ensures snapshot.conversation == old(original.conversation) + [f]
    ensures snapshot.synopsis == original.synopsis
  {
    snapshot := original.Clone();
    original.AddUtterance(e);
    snapshot.AddUtterance(f);
  }
}
