/**
 * CharacterSelectUI: the select screen. It gathers the selectable characters
 * (library entries, then manual choices), selects the first usable one,
 * lets the player step forwards and backwards cyclically through the usable
 * ones, and keeps the global selection, the card highlights and the Play
 * button in step with the current index.
 */
module CharacterSelect {
  import opened Mathf
  import opened Run
  import opened Selection

  /** A selectable character: its name, its player prefab and its data (None: not assigned). */
  datatype Choice = Choice(displayName: string, playerPrefab: Option<nat>, data: Option<nat>)

  /** A choice can be played when it exists and has both a prefab and data. */
  predicate IsValidChoice(c: Option<Choice>)
  {
    c.Some? && c.value.playerPrefab.Some? && c.value.data.Some?
  }

  /** The entries of a list that are not null, in their order. */
  function NonNull(s: seq<Option<Choice>>): (r: seq<Choice>)
    ensures |r| <= |s|
  {
    if |s| == 0 then []
    else NonNull(s[..|s| - 1]) + (if s[|s| - 1].Some? then [s[|s| - 1].value] else [])
  }

  /** NonNull keeps exactly the entries that are present. */
  lemma {:induction false} NonNullExactly(s: seq<Option<Choice>>, c: Choice)
    ensures c in NonNull(s) <==> Some(c) in s
  {
    if |s| > 0 {
      NonNullExactly(s[..|s| - 1], c);
      assert s == s[..|s| - 1] + [s[|s| - 1]];
    }
  }

  /** A list with no null entries is kept as it is. */
  lemma {:induction false} NonNullOfPresent(s: seq<Option<Choice>>)
    requires forall i :: 0 <= i < |s| ==> s[i].Some?
    ensures |NonNull(s)| == |s|
    ensures forall i :: 0 <= i < |s| ==> NonNull(s)[i] == s[i].value
  {
    if |s| > 0 {
      NonNullOfPresent(s[..|s| - 1]);
    }
  }

  /** Whether some choice in the list can be played. */
  predicate AnyValid(s: seq<Choice>)
  {
    exists i :: 0 <= i < |s| && IsValidChoice(Some(s[i]))
  }

  /** i is the least index of a playable choice. */
  predicate IsFirstValid(s: seq<Choice>, i: int)
  {
    0 <= i < |s| && IsValidChoice(Some(s[i])) && forall j :: 0 <= j < i ==> !IsValidChoice(Some(s[j]))
  }

  /** Index `start + step` taken cyclically over n entries. */
  function Forward(start: int, step: int, n: nat): (r: nat)
    requires n > 0
    ensures r < n
  {
    (start + step) % n
  }

  /** Index `start - step` taken cyclically over n entries. */
  function Backward(start: int, step: int, n: nat): (r: nat)
    requires n > 0
    ensures r < n
  {
    (start - step + n) % n
  }

  /** Stepping forwards 1 to n times from any start visits every index. */
  lemma ForwardCovers(start: int, n: nat, j: nat)
    requires n > 0 && j < n
    ensures exists step :: 1 <= step <= n && Forward(start, step, n) == j
  {
    var q, s0 := start / n, start % n;
    if j > s0 {
      ModUnique(start + (j - s0), q, j, n);
      assert Forward(start, j - s0, n) == j;
    } else {
      assert (q + 1) * n == q * n + n;
      ModUnique(start + (j - s0 + n), q + 1, j, n);
      assert Forward(start, j - s0 + n, n) == j;
    }
  }

  /** Stepping backwards 1 to n times from any start visits every index. */
  lemma BackwardCovers(start: int, n: nat, j: nat)
    requires n > 0 && j < n
    ensures exists step :: 1 <= step <= n && Backward(start, step, n) == j
  {
    var q, s0 := start / n, start % n;
    if s0 > j {
      assert (q + 1) * n == q * n + n;
      ModUnique(start - (s0 - j) + n, q + 1, j, n);
      assert Backward(start, s0 - j, n) == j;
    } else {
      ModUnique(start - (s0 - j + n) + n, q, j, n);
      assert Backward(start, s0 - j + n, n) == j;
    }
  }

  /** The remainder is the r of any a == q * n + r with 0 <= r < n. */
  lemma ModUnique(a: int, q: int, r: int, n: int)
    requires n > 0 && 0 <= r < n && a == q * n + r
    ensures a % n == r
  {
    var q2, r2 := a / n, a % n;
    assert (q2 - q) * n == r - r2;
    if q2 > q {
      AtLeastOnce(q2 - q, n);
      assert false;
    } else if q2 < q {
      AtLeastOnce(q - q2, n);
      assert false;
    }
  }

  lemma AtLeastOnce(k: int, n: int)
    requires k >= 1 && n > 0
    ensures k * n >= n
  {
    assert k * n == (k - 1) * n + n;
  }

  class CharacterSelectUI {
    /** The playable list, built once at start. */
    var choices: seq<Choice>
    /** The selected index, or -1. */
    var currentIndex: int
    /** The highlight state of each spawned card, by index. */
    var cards: seq<bool>
    /** Whether a Play button was found, and whether it can be pressed. */
    const hasPlayButton: bool
    var playInteractable: bool

    /** The selection is -1 or a playable index. */
    ghost predicate Valid()
      reads this
    {
      currentIndex == -1 || (0 <= currentIndex < |choices| && IsValidChoice(Some(choices[currentIndex])))
    }

    /** Nothing built, nothing selected. */
    constructor (hasPlayButton: bool)
      ensures Valid() && choices == [] && currentIndex == -1 && cards == []
      ensures this.hasPlayButton == hasPlayButton && !playInteractable
    {
      choices, currentIndex, cards := [], -1, [];
      this.hasPlayButton := hasPlayButton;
      playInteractable := false;
    }

    /**
     * The list from scratch: the library's entries (when a library with
     * entries is set), then the manual choices, each skipping nulls and
     * keeping its order.
     */
    method BuildChoices(library: Option<seq<Option<Choice>>>, manualChoices: Option<seq<Option<Choice>>>)
      modifies this
      ensures choices ==
        (if library.Some? then NonNull(library.value) else [])
        + (if manualChoices.Some? then NonNull(manualChoices.value) else [])
      ensures currentIndex == old(currentIndex) && cards == old(cards) && playInteractable == old(playInteractable)
    {
      choices := [];
      if library.Some? {
        var entries := library.value;
        for i := 0 to |entries|
          invariant choices == NonNull(entries[..i])
          invariant currentIndex == old(currentIndex) && cards == old(cards) && playInteractable == old(playInteractable)
        {
          assert entries[..i + 1][..i] == entries[..i];
          if entries[i].None? {
            continue;
          }
          choices := choices + [entries[i].value];
        }
        assert entries[..|entries|] == entries;
      }
      if manualChoices.Some? && |manualChoices.value| > 0 {
        var manual := manualChoices.value;
        var before := choices;
        for i := 0 to |manual|
          invariant choices == before + NonNull(manual[..i])
          invariant currentIndex == old(currentIndex) && cards == old(cards) && playInteractable == old(playInteractable)
        {
          assert manual[..i + 1][..i] == manual[..i];
          if manual[i].None? {
            continue;
          }
          choices := choices + [manual[i].value];
        }
        assert manual[..|manual|] == manual;
      }
    }

    /**
     * The cards: with a grid parent set, old cards are removed; with both
     * the grid parent and the card prefab set, one unhighlighted card per
     * choice is made.
     */
    method BuildGrid(hasGridContent: bool, hasCardPrefab: bool)
      modifies this
      ensures hasGridContent && hasCardPrefab ==> |cards| == |choices| && forall i :: 0 <= i < |cards| ==> !cards[i]
      ensures hasGridContent && !hasCardPrefab ==> cards == []
      ensures !hasGridContent ==> cards == old(cards)
      ensures choices == old(choices) && currentIndex == old(currentIndex) && playInteractable == old(playInteractable)
    {
      if hasGridContent && |cards| > 0 {
        cards := [];
      }
      if !hasGridContent || !hasCardPrefab {
        return;
      }
      for i := 0 to |choices|
        invariant |cards| == i && forall k :: 0 <= k < i ==> !cards[k]
        invariant choices == old(choices) && currentIndex == old(currentIndex) && playInteractable == old(playInteractable)
      {
        cards := cards + [false];
      }
    }

    /** The least playable index, or -1 when no choice can be played. */
    method FindFirstValidIndex() returns (r: int)
      ensures r == -1 <==> !AnyValid(choices)
      ensures r != -1 ==> IsFirstValid(choices, r)
    {
      for i := 0 to |choices|
        invariant forall j :: 0 <= j < i ==> !IsValidChoice(Some(choices[j]))
      {
        if IsValidChoice(Some(choices[i])) {
          return i;
        }
      }
      return -1;
    }

    /** Highlights exactly the card at `selectedIndex` (none for an index without a card). */
    method UpdateCardHighlights(selectedIndex: int)
      modifies this
      ensures |cards| == |old(cards)|
      ensures forall i :: 0 <= i < |cards| ==> (cards[i] <==> i == selectedIndex)
      ensures choices == old(choices) && currentIndex == old(currentIndex) && playInteractable == old(playInteractable)
    {
      for i := 0 to |cards|
        invariant |cards| == |old(cards)|
        invariant forall k :: 0 <= k < i ==> (cards[k] <==> k == selectedIndex)
        invariant choices == old(choices) && currentIndex == old(currentIndex) && playInteractable == old(playInteractable)
      {
        cards := cards[i := i == selectedIndex];
      }
    }

    /**
     * Select `index`. Out of range or not playable: no selection, the global
     * selection cleared, no card highlighted, Play disabled. Otherwise it
     * becomes the current index, its prefab and data become the global
     * selection, its card alone is highlighted and Play is enabled.
     */
    method SetSelection(index: int, selected: SelectedChoice)
      modifies this, selected
      ensures Valid()
      ensures choices == old(choices) && |cards| == |old(cards)|
      ensures !(0 <= index < |choices| && IsValidChoice(Some(choices[index]))) ==>
        && currentIndex == -1 && !selected.HasSelection()
        && selected.playerPrefab.None? && selected.characterData.None?
        && (forall i :: 0 <= i < |cards| ==> !cards[i])
        && playInteractable == (if hasPlayButton then false else old(playInteractable))
      ensures 0 <= index < |choices| && IsValidChoice(Some(choices[index])) ==>
        && currentIndex == index && selected.HasSelection()
        && selected.playerPrefab == choices[index].playerPrefab && selected.characterData == choices[index].data
        && (forall i :: 0 <= i < |cards| ==> (cards[i] <==> i == index))
        && playInteractable == (if hasPlayButton then true else old(playInteractable))
    {
      if index < 0 || index >= |choices| || !IsValidChoice(Some(choices[index])) {
        currentIndex := -1;
        selected.Clear();
        UpdateCardHighlights(-1);
        if hasPlayButton {
          playInteractable := false;
        }
        return;
      }
      currentIndex := index;
      var c := choices[index];
      selected.Store(c.playerPrefab, c.data);
      UpdateCardHighlights(index);
      if hasPlayButton {
        playInteractable := true;
      }
    }

    /**
     * Start of the screen: build the list and the cards, select the first
     * playable choice (or nothing), and enable Play exactly when a selection
     * was made.
     */
    method Start(library: Option<seq<Option<Choice>>>, manualChoices: Option<seq<Option<Choice>>>,
                 hasGridContent: bool, hasCardPrefab: bool, selected: SelectedChoice)
      modifies this, selected
      ensures Valid()
      ensures choices ==
        (if library.Some? then NonNull(library.value) else [])
        + (if manualChoices.Some? then NonNull(manualChoices.value) else [])
      ensures currentIndex == -1 <==> !AnyValid(choices)
      ensures currentIndex != -1 ==> IsFirstValid(choices, currentIndex)
      ensures selected.HasSelection() <==> AnyValid(choices)
      ensures currentIndex == -1 ==>
        selected.playerPrefab.None? && selected.characterData.None? && forall i :: 0 <= i < |cards| ==> !cards[i]
      ensures currentIndex != -1 ==>
        && selected.playerPrefab == choices[currentIndex].playerPrefab
        && selected.characterData == choices[currentIndex].data
        && forall i :: 0 <= i < |cards| ==> (cards[i] <==> i == currentIndex)
      ensures hasGridContent && hasCardPrefab ==> |cards| == |choices|
      ensures hasPlayButton ==> playInteractable == AnyValid(choices)
    {
      BuildChoices(library, manualChoices);
      BuildGrid(hasGridContent, hasCardPrefab);
      var first := FindFirstValidIndex();
      SetSelection(first, selected);
      if hasPlayButton {
        playInteractable := selected.HasSelection();
      }
    }

    /**
     * Step forwards: from max(0, current), the first playable index 1, 2, ...
     * n steps on (cyclically) is selected, as `SetSelection` selects it:
     * stored globally, its card alone highlighted, Play enabled. With no
     * choices, or none playable, nothing changes.
     */
    method Next(selected: SelectedChoice)
      modifies this, selected
      ensures choices == old(choices)
      ensures !AnyValid(choices) ==> unchanged(this) && unchanged(selected)
      ensures AnyValid(choices) ==>
        var n, start := |choices|, MaxInt(0, old(currentIndex));
        && Valid() && selected.HasSelection()
        && (exists step :: 1 <= step <= n && currentIndex == Forward(start, step, n)
             && forall k :: 1 <= k < step ==> !IsValidChoice(Some(choices[Forward(start, k, n)])))
        && 0 <= currentIndex < n
        && selected.playerPrefab == choices[currentIndex].playerPrefab
        && selected.characterData == choices[currentIndex].data
        && |cards| == |old(cards)| && (forall i :: 0 <= i < |cards| ==> (cards[i] <==> i == currentIndex))
        && playInteractable == (if hasPlayButton then true else old(playInteractable))
    {
      var n := |choices|;
      if n == 0 {
        return;
      }
      var start := MaxInt(0, currentIndex);
      for step := 1 to n + 1
        invariant forall k :: 1 <= k < step ==> !IsValidChoice(Some(choices[Forward(start, k, n)]))
        invariant unchanged(this) && unchanged(selected)
      {
        var idx := (start + step) % n;
        if IsValidChoice(Some(choices[idx])) {
          SetSelection(idx, selected);
          assert currentIndex == Forward(start, step, n);
          return;
        }
      }
      if AnyValid(choices) {
        var j :| 0 <= j < n && IsValidChoice(Some(choices[j]));
        ForwardCovers(start, n, j);
        assert false;
      }
    }

    /**
     * Step backwards: from the current index (0 when none), the first
     * playable index 1, 2, ... n steps back (cyclically) is selected, as
     * `SetSelection` selects it: stored globally, its card alone
     * highlighted, Play enabled. With no choices, or none playable, nothing
     * changes.
     */
    method Prev(selected: SelectedChoice)
      modifies this, selected
      ensures choices == old(choices)
      ensures !AnyValid(choices) ==> unchanged(this) && unchanged(selected)
      ensures AnyValid(choices) ==>
        var n, start := |choices|, (if old(currentIndex) < 0 then 0 else old(currentIndex));
        && Valid() && selected.HasSelection()
        && (exists step :: 1 <= step <= n && currentIndex == Backward(start, step, n)
             && forall k :: 1 <= k < step ==> !IsValidChoice(Some(choices[Backward(start, k, n)])))
        && 0 <= currentIndex < n
        && selected.playerPrefab == choices[currentIndex].playerPrefab
        && selected.characterData == choices[currentIndex].data
        && |cards| == |old(cards)| && (forall i :: 0 <= i < |cards| ==> (cards[i] <==> i == currentIndex))
        && playInteractable == (if hasPlayButton then true else old(playInteractable))
    {
      var n := |choices|;
      if n == 0 {
        return;
      }
      var start := if currentIndex < 0 then 0 else currentIndex;
      for step := 1 to n + 1
        invariant forall k :: 1 <= k < step ==> !IsValidChoice(Some(choices[Backward(start, k, n)]))
        invariant unchanged(this) && unchanged(selected)
      {
        var idx := (start - step + n) % n;
        if IsValidChoice(Some(choices[idx])) {
          SetSelection(idx, selected);
          assert currentIndex == Backward(start, step, n);
          return;
        }
      }
      if AnyValid(choices) {
        var j :| 0 <= j < n && IsValidChoice(Some(choices[j]));
        BackwardCovers(start, n, j);
        assert false;
      }
    }

    /**
     * Play: refused without a selection or without a scene name; otherwise
     * time runs at normal speed and the game scene is loaded (`loads`).
     */
    method OnPlayPressed(selected: SelectedChoice, mainSceneName: string, time: TimeScale) returns (loads: bool)
      modifies time
      ensures loads <==> selected.HasSelection() && mainSceneName != ""
      ensures loads ==> time.value == 1.0
      ensures !loads ==> unchanged(time)
    {
      if !selected.HasSelection() {
        return false;
      }
      if mainSceneName == "" {
        return false;
      }
      time.value := 1.0;
      loads := true;
    }
  }
}
