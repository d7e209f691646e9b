/** The background quality probe: from the format descriptors the extraction
    library reports for a URL to the descending list of distinct heights. */
module Qualities {
  import opened Wrappers

  /** One format descriptor; `None` stands both for a missing `height` key and for `height: None`. */
  datatype FormatDesc = FormatDesc(height: Option<int>)

  /** The metadata dictionary; `None` stands for a missing `formats` key. */
  datatype Info = Info(formats: Option<seq<FormatDesc>>)

  /** `info_dict.get('formats', [])`. */
  function FormatsOf(info: Info): seq<FormatDesc>
  {
    match info.formats
    case Some(fs) => fs
    case None => []
  }

  /** `'height' in f and f['height']`: present and truthy (non-zero). */
  predicate HasHeight(f: FormatDesc)
  {
    f.height.Some? && f.height.value != 0
  }

  /** The set the collection loop builds. */
  ghost function HeightSet(fs: seq<FormatDesc>): set<int>
  {
    if fs == [] then {}
    else HeightSet(fs[..|fs| - 1]) + (if HasHeight(fs[|fs| - 1]) then {fs[|fs| - 1].height.value} else {})
  }

  /** A height is collected exactly when some descriptor carries it and it is truthy. */
  lemma {:induction false} HeightSetMembers(fs: seq<FormatDesc>, h: int)
    ensures h in HeightSet(fs) <==> exists i :: 0 <= i < |fs| && fs[i].height == Some(h) && h != 0
  {
    if fs != [] {
      var init := fs[..|fs| - 1];
      HeightSetMembers(init, h);
      if exists i :: 0 <= i < |init| && init[i].height == Some(h) && h != 0 {
        var i :| 0 <= i < |init| && init[i].height == Some(h) && h != 0;
        assert fs[i] == init[i];
      }
      if exists i :: 0 <= i < |fs| && fs[i].height == Some(h) && h != 0 {
        var i :| 0 <= i < |fs| && fs[i].height == Some(h) && h != 0;
        if i < |init| {
          assert init[i] == fs[i];
        }
      }
    }
  }

  predicate StrictlyDescending(s: seq<int>)
  {
    forall i, j :: 0 <= i < j < |s| ==> s[i] > s[j]
  }

  /** A non-empty set has an element. */
  lemma HasElement(s: set<int>)
    requires s != {}
    ensures exists x :: x in s
  {
    if forall x :: x !in s {
      assert false;
    }
  }

  /** The largest element of a non-empty finite set. */
  ghost function MaxOf(s: set<int>): (m: int)
    requires s != {}
    ensures m in s
    ensures forall x :: x in s ==> x <= m
    decreases |s|
  {
    HasElement(s);
    var x :| x in s;
    if s == {x} then x
    else
      assert forall y :: y in s ==> y == x || y in s - {x};
      var below := MaxOf(s - {x});
      if x > below then x else below
  }

  /** `sorted(list(s), reverse=True)` for a set of distinct integers. */
  ghost function SortedDesc(s: set<int>): (r: seq<int>)
    ensures StrictlyDescending(r)
    ensures forall x :: x in r <==> x in s
    ensures |r| == |s|
    decreases |s|
  {
    if s == {} then []
    else
      var m := MaxOf(s);
      [m] + SortedDesc(s - {m})
  }

  lemma SameElementsNonEmpty(a: seq<int>, b: seq<int>)
    requires a != []
    requires forall x :: x in a <==> x in b
    ensures b != []
  {
    var x := a[0];
    assert x in a;
    assert x in b;
  }

  /** Two descending arrangements of the same elements start with the same one,
      their maximum. */
  lemma SameHead(a: seq<int>, b: seq<int>)
    requires StrictlyDescending(a) && StrictlyDescending(b)
    requires forall x :: x in a <==> x in b
    requires a != [] && b != []
    ensures a[0] == b[0]
  {
    assert a[0] in a && b[0] in b;
    var i :| 0 <= i < |a| && a[i] == b[0];
    var j :| 0 <= j < |b| && b[j] == a[0];
    assert a[0] >= a[i];
    assert b[0] >= b[j];
  }

  /** An element after the common head of `a` also lies after the head of `b`. */
  lemma InTail(a: seq<int>, b: seq<int>, x: int)
    requires StrictlyDescending(a) && StrictlyDescending(b)
    requires forall y :: y in a <==> y in b
    requires a != [] && b != [] && a[0] == b[0]
    requires x in a[1..]
    ensures x in b[1..]
  {
    var i :| 1 <= i < |a| && a[i] == x;
    assert x in b;
    var j :| 0 <= j < |b| && b[j] == x;
    assert j != 0;
    assert b[1..][j - 1] == x;
  }

  /** A finite set has exactly one strictly descending arrangement. */
  lemma {:induction false} DescendingUnique(a: seq<int>, b: seq<int>)
    requires StrictlyDescending(a) && StrictlyDescending(b)
    requires forall x :: x in a <==> x in b
    ensures a == b
    decreases |a|
  {
    if a != [] {
      SameElementsNonEmpty(a, b);
    }
    if b != [] {
      SameElementsNonEmpty(b, a);
    }
    if a != [] && b != [] {
      SameHead(a, b);
      forall x ensures x in a[1..] <==> x in b[1..] {
        if x in a[1..] {
          InTail(a, b, x);
        }
        if x in b[1..] {
          InTail(b, a, x);
        }
      }
      DescendingUnique(a[1..], b[1..]);
      assert a == [a[0]] + a[1..];
      assert b == [b[0]] + b[1..];
    }
  }

  /** The quality list the worker reports for a descriptor list. */
  ghost function QualityList(fs: seq<FormatDesc>): seq<int>
  {
    SortedDesc(HeightSet(fs))
  }

  /** The loop of `run` that adds each truthy height to a set. */
  method CollectHeights(fs: seq<FormatDesc>) returns (heights: set<int>)
    ensures heights == HeightSet(fs)
  {
    heights := {};
    var i := 0;
    while i < |fs|
      invariant 0 <= i <= |fs|
      invariant heights == HeightSet(fs[..i])
    {
      var f := fs[i];
      assert fs[..i + 1][..i] == fs[..i];
      if HasHeight(f) {
        heights := heights + {f.height.value};
      }
      i := i + 1;
    }
    assert fs[..i] == fs;
  }

  /** `sorted(list(heights), reverse=True)`: repeatedly takes the largest remaining height. */
  method SortDescending(heights: set<int>) returns (sorted: seq<int>)
    ensures sorted == SortedDesc(heights)
  {
    sorted := [];
    var rest := heights;
    while rest != {}
      invariant rest <= heights
      invariant StrictlyDescending(sorted)
      invariant forall x :: x in sorted <==> x in heights && x !in rest
      invariant forall x, y :: x in sorted && y in rest ==> x > y
      decreases |rest|
    {
      ghost var top := MaxOf(rest);
      var m :| m in rest && forall y :: y in rest ==> y <= m;
      assert forall i :: 0 <= i < |sorted| ==> sorted[i] in sorted;
      assert forall i :: 0 <= i < |sorted| ==> sorted[i] > m;
      sorted := sorted + [m];
      rest := rest - {m};
    }
    DescendingUnique(sorted, SortedDesc(heights));
  }

  /** `QualityFetchThread.run`, with the probe result given: a raised exception
      becomes the failure message, otherwise the distinct truthy heights in
      descending order. Exactly one of the two outcomes is produced. */
  method Run(probe: Result<Info, string>) returns (r: Result<seq<int>, string>)
    ensures probe.Failure? ==> r == Failure(probe.error)
    ensures probe.Success? ==> r == Success(QualityList(FormatsOf(probe.value)))
  {
    match probe
    case Failure(msg) =>
      r := Failure(msg);
    case Success(info) =>
      var formats := FormatsOf(info);
      var heights := CollectHeights(formats);
      var sorted := SortDescending(heights);
      r := Success(sorted);
  }

  /** The reported list is strictly descending (so duplicate-free) and holds
      exactly the heights that some descriptor carries with a truthy value. */
  lemma QualityListCharacterised(fs: seq<FormatDesc>)
    ensures StrictlyDescending(QualityList(fs))
    ensures forall h :: h in QualityList(fs) <==> exists i :: 0 <= i < |fs| && fs[i].height == Some(h) && h != 0
  {
    forall h ensures h in QualityList(fs) <==> exists i :: 0 <= i < |fs| && fs[i].height == Some(h) && h != 0 {
      HeightSetMembers(fs, h);
    }
  }

  const ExampleFormats: seq<FormatDesc> :=
    [FormatDesc(Some(720)), FormatDesc(Some(1080)), FormatDesc(Some(720)), FormatDesc(Some(480)), FormatDesc(None)]

  lemma ExampleHeightSet()
    ensures HeightSet(ExampleFormats) == {720, 1080, 480}
  {
    var fs := ExampleFormats;
    assert HeightSet(fs[..1]) == {720} by {
      assert fs[..1][..0] == [];
    }
    assert HeightSet(fs[..2]) == {720, 1080} by {
      assert fs[..2][..1] == fs[..1];
    }
    assert HeightSet(fs[..3]) == {720, 1080} by {
      assert fs[..3][..2] == fs[..2];
    }
    assert HeightSet(fs[..4]) == {720, 1080, 480} by {
      assert fs[..4][..3] == fs[..3];
    }
    assert fs[..4] == fs[..|fs| - 1];
  }

  /** The sorted arrangement is the only strictly descending one. */
  lemma SortedDescUnique(s: set<int>, r: seq<int>)
    requires StrictlyDescending(r)
    requires forall x :: x in r <==> x in s
    ensures SortedDesc(s) == r
  {
    DescendingUnique(SortedDesc(s), r);
  }

  /** Heights 720, 1080, 720, 480 and a missing one give 1080, 720, 480. */
  lemma ExampleQualities()
    ensures QualityList(ExampleFormats) == [1080, 720, 480]
  {
    ExampleHeightSet();
    var expected := [1080, 720, 480];
    assert forall x :: x in expected <==> x == 1080 || x == 720 || x == 480;
    SortedDescUnique(HeightSet(ExampleFormats), expected);
  }

  /** A zero height is dropped like a missing one. */
  lemma ZeroHeightDropped(fs: seq<FormatDesc>)
    ensures 0 !in QualityList(fs)
  {
    QualityListCharacterised(fs);
  }
}
