/** The page switcher behaviour (`gui/BhvSwitchPage.ts`): one child node of
    the component's node is the current page. Setting the page index rounds
    it, clamps it (or wraps it, in loop mode) to the children and then shows
    the new page. The children are modelled by their `active` flags. */
module SwitchPage {
  import opened Wrappers

  /** `Math.round`: the nearest integer, halves rounded up. */
  function JsRound(v: real): (r: int)
    ensures r as real - 0.5 <= v < r as real + 0.5
  {
    (v + 0.5).Floor
  }

  /** The setter's range check against `count`, the last child's index:
      out-of-range values are clamped, or in loop mode wrapped to the other end. */
  function Normalize(v: int, count: int, loop: bool): (r: int)
    ensures count >= 0 ==> 0 <= r <= count
    ensures 0 <= v <= count ==> r == v
    ensures loop && count >= 0 && v > count ==> r == 0
    ensures loop && count >= 0 && v < 0 ==> r == count
    ensures !loop && count >= 0 && v > count ==> r == count
    ensures !loop && v < 0 ==> r == 0
  {
    if loop then
      var w := if v > count then 0 else v;
      if w < 0 then count else w
    else
      var w := if v > count then count else v;
      if w < 0 then 0 else w
  }

  /** Node `k` exists: `children[k]` is not `undefined`. */
  predicate IsChild(active: seq<bool>, k: int) {
    0 <= k < |active|
  }

  /** `_updatePage` compares the nodes at both indices: the same node, or
      `undefined` twice, means nothing to do. */
  predicate SameNode(active: seq<bool>, pre: int, cur: int) {
    if IsChild(active, pre) then IsChild(active, cur) && pre == cur else !IsChild(active, cur)
  }

  /** `_updatePage` throws a TypeError when it writes `active` on a missing node. */
  predicate Throws(active: seq<bool>, pre: int, cur: int) {
    !SameNode(active, pre, cur) && !(IsChild(active, pre) && IsChild(active, cur))
  }

  /** The flags after `_updatePage`: the previous page hidden, then the
      current one shown, as far as the run gets before a missing node. */
  function Switched(active: seq<bool>, pre: int, cur: int): seq<bool> {
    if SameNode(active, pre, cur) || !IsChild(active, pre) then active
    else if !IsChild(active, cur) then active[pre := false]
    else active[pre := false][cur := true]
  }

  /** Exactly the child at `k` is shown. */
  predicate OnePage(active: seq<bool>, k: int) {
    0 <= k < |active| && forall i :: 0 <= i < |active| ==> (active[i] <==> i == k)
  }

  /** With one page shown, switching from it to any existing child never
      throws and leaves exactly the new page shown. */
  lemma SwitchKeepsOnePage(active: seq<bool>, pre: int, cur: int)
    requires OnePage(active, pre) && 0 <= cur < |active|
    ensures !Throws(active, pre, cur)
    ensures OnePage(Switched(active, pre, cur), cur)
  {
    var after := Switched(active, pre, cur);
    forall i | 0 <= i < |active|
      ensures after[i] <==> i == cur
    {
      if pre == cur {
        assert after == active;
      } else if i == cur {
        assert after[i];
      } else if i == pre {
        assert !after[i];
      } else {
        assert after[i] == active[i];
      }
    }
  }

  class BhvSwitchPage {
    /** `isLoopPage`, an editor property. */
    const isLoopPage: bool
    /** The build runs inside the editor (`EDITOR`). */
    const inEditor: bool
    /** `_index`, the current page. */
    var index: int
    /** `preIndex`, the page shown before the last change. */
    var preIndex: int
    /** `_isChanging`: nothing in the component ever sets it. */
    var isChanging: bool
    /** The `active` flags of the node's children, in child order. */
    var active: seq<bool>

    /** The component as deserialised: `_index` as saved, `preIndex` 0. */
    constructor (loop: bool, editor: bool, savedIndex: int, children: seq<bool>)
      ensures isLoopPage == loop && inEditor == editor && index == savedIndex && active == children
      ensures preIndex == 0 && !isChanging
    {
      isLoopPage := loop;
      inEditor := editor;
      index := savedIndex;
      preIndex := 0;
      isChanging := false;
      active := children;
    }

    /** `_updatePage`: hides the page at `preIndex` and shows the one at `index`. */
    method UpdatePage() returns (thrown: bool)
      modifies this
      ensures thrown == Throws(old(active), preIndex, index)
      ensures active == Switched(old(active), preIndex, index)
      ensures index == old(index) && preIndex == old(preIndex) && isChanging == old(isChanging)
    {
      if SameNode(active, preIndex, index) {
        return false;
      }
      if !IsChild(active, preIndex) {
        return true;
      }
      active := active[preIndex := false];
      if !IsChild(active, index) {
        return true;
      }
      active := active[index := true];
      thrown := false;
    }

    /** `_updateEditorPage`: in the editor exactly the child at `page` is shown. */
    method UpdateEditorPage(page: int)
      modifies this
      ensures inEditor ==> |active| == |old(active)| && forall i :: 0 <= i < |active| ==> (active[i] <==> i == page)
      ensures !inEditor ==> active == old(active)
      ensures index == old(index) && preIndex == old(preIndex) && isChanging == old(isChanging)
    {
      if !inEditor {
        return;
      }
      var i := 0;
      while i < |active|
        invariant 0 <= i <= |active| == |old(active)|
        invariant forall j :: 0 <= j < i ==> (active[j] <==> j == page)
        invariant index == old(index) && preIndex == old(preIndex) && isChanging == old(isChanging)
      {
        active := active[i := i == page];
        i := i + 1;
      }
    }

    /** The `index` setter. Unless a change is in progress the value is
        rounded and brought into range, the old index kept in `preIndex`,
        and the page shown; with one page shown before, exactly the new one
        is shown after. */
    method SetIndex(v: real) returns (thrown: bool)
      modifies this
      ensures old(isChanging) ==> !thrown && index == old(index) && preIndex == old(preIndex) && active == old(active)
      ensures !old(isChanging) ==>
        preIndex == old(index) && index == Normalize(JsRound(v), |old(active)| - 1, isLoopPage)
      ensures !old(isChanging) && inEditor ==>
        !thrown && |active| == |old(active)| && forall i :: 0 <= i < |active| ==> (active[i] <==> i == index)
      ensures !old(isChanging) && !inEditor ==>
        thrown == Throws(old(active), preIndex, index) && active == Switched(old(active), preIndex, index)
      ensures !old(isChanging) && |old(active)| > 0 && OnePage(old(active), old(index)) ==>
        !thrown && OnePage(active, index)
      ensures isChanging == old(isChanging)
    {
      if isChanging {
        return false;
      }
      var w := Normalize(JsRound(v), |active| - 1, isLoopPage);
      preIndex := index;
      index := w;
      if inEditor {
        UpdateEditorPage(w);
        thrown := false;
      } else {
        if |active| > 0 && OnePage(active, preIndex) {
          SwitchKeepsOnePage(active, preIndex, index);
        }
        thrown := UpdatePage();
      }
    }

    /** `onLoad`: `preIndex` catches up with the index; both name the same
        node, so no page changes. */
    method OnLoad()
      modifies this
      ensures preIndex == index && index == old(index) && active == old(active) && isChanging == old(isChanging)
    {
      preIndex := index;
      var thrown := UpdatePage();
    }

    /** `next`: the index setter with the index plus one; true unless a change is in progress. */
    method Next() returns (r: bool, thrown: bool)
      modifies this
      ensures r == !old(isChanging)
      ensures r ==> preIndex == old(index) && index == Normalize(old(index) + 1, |old(active)| - 1, isLoopPage)
      ensures r && isLoopPage && old(index) == |old(active)| - 1 >= 0 ==> index == 0
      ensures r && !isLoopPage && old(index) == |old(active)| - 1 >= 0 ==> index == old(index)
      ensures !r ==> !thrown && index == old(index) && active == old(active)
      ensures r && |old(active)| > 0 && OnePage(old(active), old(index)) ==> !thrown && OnePage(active, index)
      ensures isChanging == old(isChanging)
    {
      if isChanging {
        return false, false;
      }
      assert JsRound((index + 1) as real) == index + 1;
      thrown := SetIndex((index + 1) as real);
      r := true;
    }

    /** `previous`: the index setter with the index minus one. */
    method Previous() returns (r: bool, thrown: bool)
      modifies this
      ensures r == !old(isChanging)
      ensures r ==> preIndex == old(index) && index == Normalize(old(index) - 1, |old(active)| - 1, isLoopPage)
      ensures r && isLoopPage && old(index) == 0 && |old(active)| > 0 ==> index == |old(active)| - 1
      ensures r && !isLoopPage && old(index) == 0 ==> index == 0
      ensures !r ==> !thrown && index == old(index) && active == old(active)
      ensures r && |old(active)| > 0 && OnePage(old(active), old(index)) ==> !thrown && OnePage(active, index)
      ensures isChanging == old(isChanging)
    {
      if isChanging {
        return false, false;
      }
      assert JsRound((index - 1) as real) == index - 1;
      thrown := SetIndex((index - 1) as real);
      r := true;
    }

    /** `setEventIndex(e, index)`: a page number from an event; `None` is
        `null` or `undefined`. Only a non-negative number is applied. */
    method SetEventIndex(page: Option<real>) returns (r: bool, thrown: bool)
      modifies this
      ensures r <==> page.Some? && page.value >= 0.0 && !old(isChanging)
      ensures r ==> preIndex == old(index) && index == Normalize(JsRound(page.value), |old(active)| - 1, isLoopPage)
      ensures !r ==> !thrown && index == old(index) && preIndex == old(preIndex) && active == old(active)
      ensures isChanging == old(isChanging)
    {
      if page.Some? && page.value >= 0.0 && !isChanging {
        thrown := SetIndex(page.value);
        r := true;
      } else {
        r, thrown := false, false;
      }
    }
  }
}
