/** Display colours of the agent layer's actions. */
module ActionDisplay {
  import opened SharedTypes

  /** `ACTION_DISPLAY_COLORS`. */
  const ACTION_DISPLAY_COLORS: map<AnomalyAction, string> := map[Allow := "green", Warn := "yellow", Block := "red"]

  /** `getActionDisplayColor`: the table entry; the table covers every action. */
  function GetActionDisplayColor(a: AnomalyAction): (c: string)
    ensures a in ACTION_DISPLAY_COLORS && c == ACTION_DISPLAY_COLORS[a]
  {
    assert ACTION_DISPLAY_COLORS.Keys == {Allow, Warn, Block};
    assert a == Allow || a == Warn || a == Block;
    ACTION_DISPLAY_COLORS[a]
  }

  /** ALLOW is green, WARN yellow and BLOCK red, and no two actions share a colour. */
  lemma DisplayColors(a: AnomalyAction, b: AnomalyAction)
    ensures GetActionDisplayColor(Allow) == "green"
    ensures GetActionDisplayColor(Warn) == "yellow"
    ensures GetActionDisplayColor(Block) == "red"
    ensures GetActionDisplayColor(a) == GetActionDisplayColor(b) ==> a == b
  {
  }
}
