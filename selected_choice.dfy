/**
 * SelectedChoice: the character picked on the select screen, carried into
 * the game scene as two global references (the player prefab and its data).
 */
module Selection {
  import opened Mathf

  /** The line LogState writes: where it was called from and what is selected. */
  datatype StateReport = StateReport(where: string, hasSelection: bool, prefab: Option<nat>, data: Option<nat>)

  /** The global selection; a single instance stands for the static fields. */
  class SelectedChoice {
    var playerPrefab: Option<nat>
    var characterData: Option<nat>

    /** Nothing selected at start. */
    constructor ()
      ensures playerPrefab.None? && characterData.None?
    {
      playerPrefab, characterData := None, None;
    }

    /** A selection needs both the prefab and the data. */
    predicate HasSelection(): (r: bool)
      reads this
      ensures r ==> playerPrefab.Some? && characterData.Some?
      ensures !r ==> playerPrefab.None? || characterData.None?
    {
      playerPrefab.Some? && characterData.Some?
    }

    /** Forget the selection: both references null, so nothing is selected. */
    method Clear()
      modifies this
      ensures playerPrefab.None? && characterData.None?
      ensures !HasSelection()
    {
      playerPrefab := None;
      characterData := None;
    }

    /** Assign both references; the selection then exists exactly when both are set. */
    method Store(prefab: Option<nat>, data: Option<nat>)
      modifies this
      ensures playerPrefab == prefab && characterData == data
      ensures HasSelection() <==> prefab.Some? && data.Some?
    {
      playerPrefab := prefab;
      characterData := data;
    }

    /** The diagnostic line: it reports the current selection and changes nothing. */
    method LogState(where: string) returns (report: StateReport)
      ensures report.where == where && report.hasSelection == HasSelection()
      ensures report.prefab == playerPrefab && report.data == characterData
    {
      report := StateReport(where, HasSelection(), playerPrefab, characterData);
    }
  }

  /** Clearing then storing a complete pair always leaves a selection, and the log says so. */
  method StoreAfterClear(s: SelectedChoice, prefab: nat, data: nat) returns (report: StateReport)
    modifies s
    ensures s.HasSelection() && report.hasSelection
    ensures s.playerPrefab == Some(prefab) && s.characterData == Some(data)
  {
    s.Clear();
    s.Store(Some(prefab), Some(data));
    report := s.LogState("after store");
  }
}
