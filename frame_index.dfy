/** The frame-index behaviour (`gui/BhvFrameIndex.ts`): a sprite shows one
    frame out of a list, chosen by index or by name. JavaScript numbers are
    modelled as integers and NaN as `None`: an index taken modulo an empty
    list is NaN, and so is everything computed from it. */
module FrameIndex {
  import opened Wrappers

  /** A sprite frame, known by its name. */
  datatype SpriteFrame = SpriteFrame(name: string)

  /** `spriteFrames.findIndex(v => v.name === name)`, scanning from `from`. */
  function FindFrom(frames: seq<SpriteFrame>, name: string, from: nat): (r: int)
    requires from <= |frames|
    ensures r == -1 || (from <= r < |frames| && frames[r].name == name)
    ensures r == -1 ==> forall j :: from <= j < |frames| ==> frames[j].name != name
    ensures r != -1 ==> forall j :: from <= j < r ==> frames[j].name != name
    decreases |frames| - from
  {
    if from == |frames| then -1
    else if frames[from].name == name then from
    else FindFrom(frames, name, from + 1)
  }

  function FindName(frames: seq<SpriteFrame>, name: string): (r: int)
    ensures r == -1 || (0 <= r < |frames| && frames[r].name == name)
    ensures r == -1 <==> forall j :: 0 <= j < |frames| ==> frames[j].name != name
    ensures r != -1 ==> forall j :: 0 <= j < r ==> frames[j].name != name
  {
    FindFrom(frames, name, 0)
  }

  class BhvFrameIndex {
    /** `spriteFrames`, set in the editor. */
    const spriteFrames: seq<SpriteFrame>
    /** `_index`; `None` is NaN. */
    var index: Option<int>
    /** The sprite's `spriteFrame`; `None` is `undefined`. */
    var shown: Option<SpriteFrame>

    /** The component as deserialised, over a sprite showing `current`. */
    constructor (frames: seq<SpriteFrame>, savedIndex: int, current: Option<SpriteFrame>)
      ensures spriteFrames == frames && index == Some(savedIndex) && shown == current
    {
      spriteFrames := frames;
      index := Some(savedIndex);
      shown := current;
    }

    /** The `index` setter. A negative value is ignored; any other value is
        taken modulo the number of frames and that frame is shown. */
    method SetIndex(value: Option<int>)
      modifies this
      ensures value.Some? && value.value < 0 ==> index == old(index) && shown == old(shown)
      ensures value.Some? && value.value >= 0 && |spriteFrames| > 0 ==>
        index == Some(value.value % |spriteFrames|) && 0 <= index.value < |spriteFrames|
        && shown == Some(spriteFrames[index.value])
      ensures value.None? || (value.value >= 0 && |spriteFrames| == 0) ==> index.None? && shown.None?
    {
      if value.Some? && value.value < 0 {
        return;
      }
      if value.None? || |spriteFrames| == 0 {
        index := None;
        shown := None;
      } else {
        index := Some(value.value % |spriteFrames|);
        shown := Some(spriteFrames[index.value]);
      }
    }

    /** `setName`: shows the first frame with that name; with none, nothing changes. */
    method SetName(name: string)
      modifies this
      ensures FindName(spriteFrames, name) == -1 ==> index == old(index) && shown == old(shown)
      ensures FindName(spriteFrames, name) != -1 ==>
        index == Some(FindName(spriteFrames, name)) && shown == Some(spriteFrames[index.value])
    {
      var k := FindName(spriteFrames, name);
      if k < 0 {
        return;
      }
      assert k % |spriteFrames| == k;
      SetIndex(Some(k));
    }

    /** `next`: one frame on, from the last back to the first. */
    method Next()
      modifies this
      ensures old(index).Some? && 0 <= old(index).value < |spriteFrames| ==>
        index == Some((old(index).value + 1) % |spriteFrames|) && shown == Some(spriteFrames[index.value])
      ensures old(index).Some? && old(index).value == |spriteFrames| - 1 >= 0 ==> index == Some(0)
      ensures old(index).None? ==> index.None? && shown.None?
    {
      SetIndex(if index.Some? then Some(index.value + 1) else None);
    }

    /** `previous`: one frame back; on the first frame -1 is rejected and nothing changes. */
    method Previous()
      modifies this
      ensures old(index).Some? && 0 < old(index).value < |spriteFrames| ==>
        index == Some(old(index).value - 1) && shown == Some(spriteFrames[index.value])
      ensures old(index) == Some(0) ==> index == old(index) && shown == old(shown)
      ensures old(index).None? ==> index.None? && shown.None?
    {
      SetIndex(if index.Some? then Some(index.value - 1) else None);
    }
  }
}
