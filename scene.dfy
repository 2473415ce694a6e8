/**
 * Scenes form a tree: each scene lists its sub-scenes, in order, and may
 * know its parent. A scene can put another scene in its own place in the
 * parent's list, or take itself out of it.
 */
module SceneTree {
  import opened Wrappers

  datatype SceneError = InvalidArgument   // replace was given a null scene

  /** The first position of `x` in `s`, if `x` occurs. */
  function FirstIndex<T(==)>(s: seq<T>, x: T): Option<nat>
  {
    if |s| == 0 then None
    else if s[0] == x then Some(0)
    else match FirstIndex(s[1..], x)
      case None => None
      case Some(i) => Some(i + 1)
  }

  /** `FirstIndex` finds `x` exactly when it occurs, at an occurrence with none before it. */
  lemma {:induction false} FirstIndexSpec<T>(s: seq<T>, x: T)
    ensures FirstIndex(s, x).Some? <==> x in s
    ensures FirstIndex(s, x).Some? ==>
              FirstIndex(s, x).value < |s| && s[FirstIndex(s, x).value] == x && x !in s[..FirstIndex(s, x).value]
  {
    if |s| > 0 && s[0] != x {
      FirstIndexSpec(s[1..], x);
      assert s == [s[0]] + s[1..];
      if FirstIndex(s[1..], x).Some? {
        var i := FirstIndex(s[1..], x).value;
        assert s[..i + 1] == [s[0]] + s[1..][..i];
      }
    }
  }

  /** The list with its first `x` overwritten by `y`; unchanged when there is no `x`. */
  function ReplaceFirst<T(==)>(s: seq<T>, x: T, y: T): (r: seq<T>)
    ensures |r| == |s|
  {
    FirstIndexSpec(s, x);
    match FirstIndex(s, x)
      case None => s
      case Some(i) => s[i := y]
  }

  /** The list with its first `x` erased; unchanged when there is no `x`. */
  function RemoveFirst<T(==)>(s: seq<T>, x: T): (r: seq<T>)
    ensures |r| == if x in s then |s| - 1 else |s|
  {
    FirstIndexSpec(s, x);
    match FirstIndex(s, x)
      case None => s
      case Some(i) => s[..i] + s[i + 1..]
  }

  /**
   * Overwriting the first `x`: the slot that held it now holds `y`, the
   * earlier slots held no `x`, and every other slot is as it was.
   */
  lemma ReplaceFirstSlots<T>(s: seq<T>, x: T, y: T)
    requires x in s
    ensures exists i :: 0 <= i < |s| && s[i] == x && x !in s[..i] && ReplaceFirst(s, x, y) == s[i := y]
  {
    FirstIndexSpec(s, x);
    var i := FirstIndex(s, x).value;
    assert s[i] == x && x !in s[..i] && ReplaceFirst(s, x, y) == s[i := y];
  }

  /** Erasing the first `x` takes out one `x` and nothing else. */
  lemma RemoveFirstCount<T>(s: seq<T>, x: T)
    requires x in s
    ensures multiset(RemoveFirst(s, x)) == multiset(s) - multiset{x}
  {
    FirstIndexSpec(s, x);
    var i := FirstIndex(s, x).value;
    assert s == s[..i] + [x] + s[i + 1..];
  }

  /**
   * Erasing the first `x` keeps the others in their old order: those before
   * its slot stay, those after it move down by one.
   */
  lemma RemoveFirstOrder<T>(s: seq<T>, x: T)
    requires x in s
    ensures exists i :: 0 <= i < |s| && s[i] == x && x !in s[..i] &&
              (forall k :: 0 <= k < i ==> RemoveFirst(s, x)[k] == s[k]) &&
              (forall k :: i <= k < |s| - 1 ==> RemoveFirst(s, x)[k] == s[k + 1])
  {
    FirstIndexSpec(s, x);
    var i := FirstIndex(s, x).value;
    var r := RemoveFirst(s, x);
    assert r == s[..i] + s[i + 1..];
    assert forall k :: 0 <= k < i ==> r[k] == s[k];
    assert forall k :: i <= k < |s| - 1 ==> r[k] == s[k + 1];
  }

  /** Neither edit changes a list that does not hold `x`. */
  lemma EditsWithoutX<T>(s: seq<T>, x: T, y: T)
    requires x !in s
    ensures ReplaceFirst(s, x, y) == s && RemoveFirst(s, x) == s
  {
    FirstIndexSpec(s, x);
  }

  /** `Scene`: a name, the parent (`null` when detached) and the sub-scenes, which may be `null`. */
  class Scene {
    const name: string
    var parent: Scene?
    var subScenes: seq<Scene?>

    constructor (name: string)
      ensures this.name == name && parent == null && subScenes == []
    {
      this.name := name;
      parent := null;
      subScenes := [];
    }

    /** `addSubScene`: the scene goes at the end; the others keep their places. */
    method AddSubScene(subScene: Scene?)
      modifies this`subScenes
      ensures subScenes == old(subScenes) + [subScene]
    {
      subScenes := subScenes + [subScene];
    }

    /** The iterator loop of `replace` and `remove`: the first slot of `scenes` that holds this scene. */
    method FindIn(scenes: seq<Scene?>) returns (r: Option<nat>)
      ensures r == FirstIndex(scenes, this)
    {
      FirstIndexSpec(scenes, this);
      var i := 0;
      while i < |scenes|
        invariant i <= |scenes|
        invariant this !in scenes[..i]
      {
        if scenes[i] == this {
          return Some(i);
        }
        assert scenes[..i + 1] == scenes[..i] + [scenes[i]];
        i := i + 1;
      }
      assert scenes[..i] == scenes;
      r := None;
    }

    /**
     * `replace(newScene)`: a null scene is refused. Otherwise, when this
     * scene has a parent that lists it, its first slot there is given to
     * `newScene`, `newScene` takes the parent and this scene is detached;
     * in every other case nothing changes.
     */
    method Replace(newScene: Scene?) returns (r: Result<(), SceneError>)
      modifies this`parent, (if newScene == null then {} else {newScene})`parent,
               (if parent == null then {} else {parent})`subScenes
      ensures newScene == null ==> r == Err(InvalidArgument)
      ensures newScene != null ==> r == Ok(())
      ensures newScene != null && old(parent) != null && this in old(parent.subScenes) ==>
                old(parent).subScenes == ReplaceFirst(old(parent.subScenes), this, newScene) &&
                parent == null &&
                (newScene != this ==> newScene.parent == old(parent))
      ensures newScene == null || old(parent) == null || this !in old(parent.subScenes) ==>
                parent == old(parent) &&
                (newScene != null ==> newScene.parent == old(newScene.parent)) &&
                (old(parent) != null ==> old(parent).subScenes == old(parent.subScenes))
    {
      if newScene == null {
        return Err(InvalidArgument);
      }
      if parent != null {
        var p := parent;
        var at := FindIn(p.subScenes);
        FirstIndexSpec(p.subScenes, this);
        if at.Some? {
          p.subScenes := p.subScenes[at.value := newScene];
          newScene.parent := p;
          parent := null;
        }
      }
      r := Ok(());
    }

    /**
     * `remove()`: when this scene has a parent that lists it, its first
     * slot there is erased and this scene is detached; otherwise nothing
     * changes.
     */
    method Remove()
      modifies this`parent, (if parent == null then {} else {parent})`subScenes
      ensures old(parent) != null && this in old(parent.subScenes) ==>
                old(parent).subScenes == RemoveFirst(old(parent.subScenes), this) && parent == null
      ensures old(parent) == null || this !in old(parent.subScenes) ==>
                parent == old(parent) && (old(parent) != null ==> old(parent).subScenes == old(parent.subScenes))
    {
      if parent != null {
        var p := parent;
        var at := FindIn(p.subScenes);
        FirstIndexSpec(p.subScenes, this);
        if at.Some? {
          p.subScenes := p.subScenes[..at.value] + p.subScenes[at.value + 1..];
          parent := null;
        }
      }
    }
  }
}
