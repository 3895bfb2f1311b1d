/**
 * The tab switching of the page (script.js, the click handler registered on
 * every `.tab` element): a click clears the `active` class of every tab and
 * every `.tab-content` panel, then sets it on the clicked tab and on the
 * element whose id is the tab's `data-tab` value, and finally scrolls the
 * page to the top.
 */
module Tabs {
  import opened Seqs

  /** `active` flags where exactly position `i` of `n` is set. */
  function OnlyAt(n: nat, i: nat): seq<bool> {
    seq(n, k => k == i)
  }

  /** The number of set flags. */
  function CountActive(flags: seq<bool>): nat {
    if flags == [] then 0 else (if flags[0] then 1 else 0) + CountActive(flags[1..])
  }

  /** After the handler, exactly one flag is set, at the clicked position. */
  lemma {:induction false} ExactlyOneActive(n: nat, i: nat)
    requires i < n
    ensures |OnlyAt(n, i)| == n && OnlyAt(n, i)[i]
    ensures forall k :: 0 <= k < n && k != i ==> !OnlyAt(n, i)[k]
    ensures CountActive(OnlyAt(n, i)) == 1
  {
    NoneActiveFrom(OnlyAt(n, i), i + 1);
    CountSplit(OnlyAt(n, i), i);
  }

  /** A flag sequence with nothing set from position `from` on counts only the part before `from`. */
  lemma {:induction false} NoneActiveFrom(flags: seq<bool>, from: nat)
    requires from <= |flags|
    requires forall k :: from <= k < |flags| ==> !flags[k]
    ensures CountActive(flags[from..]) == 0
    decreases |flags| - from
  {
    if from < |flags| {
      assert flags[from..][1..] == flags[from + 1..];
      NoneActiveFrom(flags, from + 1);
    }
  }

  /** Under OnlyAt, the flags before `i` are all clear and `i` itself is set. */
  lemma {:induction false} CountSplit(flags: seq<bool>, i: nat)
    requires i < |flags| && flags[i] && CountActive(flags[i + 1..]) == 0
    requires forall k :: 0 <= k < i ==> !flags[k]
    ensures CountActive(flags) == 1
    decreases i
  {
    if i == 0 {
      assert flags[1..] == flags[i + 1..];
    } else {
      assert flags[1..][i..] == flags[i + 1..];
      CountSplit(flags[1..], i - 1);
    }
  }

  /**
   * `document.getElementById(id)` among the panels: the first index in
   * document order whose id is `id`. An empty id attribute gives an element
   * no ID, so the empty id never matches; a panel without an id attribute
   * is written with id "".
   */
  function GetElementById(ids: seq<string>, id: string): (r: Option<nat>)
    ensures r.Some? ==> r.value < |ids| && ids[r.value] == id && id != ""
    ensures r.Some? ==> forall j :: 0 <= j < r.value ==> ids[j] != id
    ensures r.None? <==> id == "" || id !in ids
  {
    if id == "" then None else First(ids, x => x == id)
  }

  /** A click either activated the panel at an index, or found no element with the tab's `data-tab` id. */
  datatype ClickOutcome = Activated(panel: nat) | NoSuchPanel(id: string)

  class TabController {
    /** The `data-tab` value of each `.tab` element, in document order. */
    const tabTargets: seq<string>
    /** The id of each `.tab-content` element, in document order. */
    const panelIds: seq<string>
    /** Whether each tab, and each panel, carries the `active` class. */
    const tabActive: array<bool>
    const panelActive: array<bool>
    /** The page's scroll position. */
    var scrollX: int
    var scrollY: int

    ghost predicate Valid()
      reads this
    {
      && tabActive.Length == |tabTargets|
      && panelActive.Length == |panelIds|
      && tabActive != panelActive
    }

    /** The page as its markup defines it: the given tabs and panels with their initial `active` classes. */
    constructor (tabTargets: seq<string>, panelIds: seq<string>, tabsOn: seq<bool>, panelsOn: seq<bool>, scrollX: int, scrollY: int)
      requires |tabsOn| == |tabTargets| && |panelsOn| == |panelIds|
      ensures Valid()
      ensures this.tabTargets == tabTargets && this.panelIds == panelIds
      ensures tabActive[..] == tabsOn && panelActive[..] == panelsOn
      ensures this.scrollX == scrollX && this.scrollY == scrollY
      ensures fresh(tabActive) && fresh(panelActive)
    {
      this.tabTargets := tabTargets;
      this.panelIds := panelIds;
      tabActive := new bool[|tabsOn|](k requires 0 <= k < |tabsOn| => tabsOn[k]);
      panelActive := new bool[|panelsOn|](k requires 0 <= k < |panelsOn| => panelsOn[k]);
      this.scrollX, this.scrollY := scrollX, scrollY;
    }

    /**
     * A click on tab `i`. When no panel has the tab's `data-tab` id the
     * lookup yields null and the handler stops with an error at that point:
     * the flags are already cleared and the tab set, and the scroll reset
     * never runs.
     */
    method Click(i: nat) returns (outcome: ClickOutcome)
      requires Valid() && i < |tabTargets|
      modifies tabActive, panelActive, this`scrollX, this`scrollY
      ensures Valid()
      ensures tabActive[..] == OnlyAt(|tabTargets|, i)
      ensures outcome.NoSuchPanel? <==> GetElementById(panelIds, tabTargets[i]).None?
      ensures outcome.Activated? ==> GetElementById(panelIds, tabTargets[i]) == Some(outcome.panel)
      ensures outcome.Activated? ==> panelActive[..] == OnlyAt(|panelIds|, outcome.panel)
      ensures outcome.Activated? ==> scrollX == 0 && scrollY == 0
      ensures outcome.NoSuchPanel? ==> outcome.id == tabTargets[i]
      ensures outcome.NoSuchPanel? ==> panelActive[..] == seq(|panelIds|, _ => false)
      ensures outcome.NoSuchPanel? ==> scrollX == old(scrollX) && scrollY == old(scrollY)
    {
      var targetTab := tabTargets[i];
      var k := 0;
      while k < tabActive.Length
        invariant 0 <= k <= tabActive.Length
        invariant forall j :: 0 <= j < k ==> !tabActive[j]
        modifies tabActive
      {
        tabActive[k] := false;
        k := k + 1;
      }
      k := 0;
      while k < panelActive.Length
        invariant 0 <= k <= panelActive.Length
        invariant forall j :: 0 <= j < k ==> !panelActive[j]
        modifies panelActive
      {
        panelActive[k] := false;
        k := k + 1;
      }
      tabActive[i] := true;
      var found := GetElementById(panelIds, targetTab);
      if found.None? {
        assert panelActive[..] == seq(|panelIds|, _ => false);
        return NoSuchPanel(targetTab);
      }
      panelActive[found.value] := true;
      scrollX, scrollY := 0, 0;
      outcome := Activated(found.value);
    }
  }
}
