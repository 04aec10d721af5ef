/**
  The default members of the outbound map protocols of
  Sources/Mapper/OutMapper/OutMap.swift.

  `OutMap` is a protocol: the conforming type, its `blank` value and its single-segment
  `set(_:at: IndexPathValue)` are supplied by the conformer and are parameters here. A
  conformer's `set` may change the map and then throw, so it is modelled as returning the
  new map together with an optional error. `IndexPathValue` is declared by the mapping
  library and is not part of this model; it is an index or a key.
*/
module OutMapping {
  import opened Wrappers

  datatype IndexPathValue = Index(index: int) | Key(key: string)

  /** `OutMapError`, plus the errors a conformer's own `set` throws. A conformer may itself
      throw an `OutMapError`; it is carried as `Conformer(e)`, which records which member
      raised it, and Swift rethrows it unchanged. */
  datatype OutMapError<E> = DeepSetIsNotImplementedYet | TryingToSetNilAtTheTopLevel | Conformer(error: E)

  /** The outcome of the path-taking `set`: the map afterwards and what it threw, if anything. */
  datatype SetOutcome<M, E> = SetOutcome(after: M, thrown: Option<OutMapError<E>>)

  /** A conformer's single-segment set. */
  type SetOne<!M, E> = (M, Option<M>, IndexPathValue) -> (M, Option<E>)

  /** `set(_:at: [IndexPathValue])` as a function of the map before the call. */
  function SetAtPath<M, E>(current: M, blank: M, setOne: SetOne<M, E>, value: Option<M>, path: seq<IndexPathValue>): (r: SetOutcome<M, E>)
    ensures |path| == 0 ==> r == SetOutcome(blank, None)
    ensures |path| >= 2 ==> r == SetOutcome(current, Some(DeepSetIsNotImplementedYet))
  {
    if |path| == 0 then SetOutcome(blank, None)
    else if |path| == 1 then
      var (m, e) := setOne(current, value, path[0]);
      SetOutcome(m, match e case Some(err) => Some(Conformer(err)) case None => None)
    else SetOutcome(current, Some(DeepSetIsNotImplementedYet))
  }

  /** A one-segment path is exactly the single-segment `set`: the same new map, and the same
      error when it throws. */
  lemma SingleSegmentDelegates<M, E>(current: M, blank: M, setOne: SetOne<M, E>, value: Option<M>, segment: IndexPathValue)
    ensures SetAtPath(current, blank, setOne, value, [segment]).after == setOne(current, value, segment).0
    ensures SetAtPath(current, blank, setOne, value, [segment]).thrown.None? <==> setOne(current, value, segment).1.None?
    ensures setOne(current, value, segment).1.Some? ==>
      SetAtPath(current, blank, setOne, value, [segment]).thrown == Some(Conformer(setOne(current, value, segment).1.value))
  {
  }

  /** The empty path resets to blank whatever value is passed, nil included, so this default
      `set` never raises `tryingToSetNilAtTheTopLevel` itself (a conformer's single-segment
      `set` may, and it is then rethrown as `Conformer`); and a failed deep set is a no-op,
      so it can be retried or ignored. */
  lemma PathSetFacts<M, E>(current: M, blank: M, setOne: SetOne<M, E>, value: Option<M>, path: seq<IndexPathValue>)
    ensures SetAtPath(current, blank, setOne, None, []) == SetAtPath(current, blank, setOne, value, [])
    ensures |path| == 1 && setOne(current, value, path[0]).1.None? ==>
      SetAtPath(current, blank, setOne, value, path).thrown.None?
    ensures SetAtPath(current, blank, setOne, value, path).thrown != Some(TryingToSetNilAtTheTopLevel)
    ensures |path| >= 2 ==>
      SetAtPath(SetAtPath(current, blank, setOne, value, path).after, blank, setOne, value, path)
      == SetAtPath(current, blank, setOne, value, path)
  {
  }

  /** A conforming map value held in a variable, with its conformer's `blank` and
      single-segment `set`. */
  class OutMap<M, E> {
    var value: M
    const blank: M
    const setOne: SetOne<M, E>

    constructor (value: M, blank: M, setOne: SetOne<M, E>)
      ensures this.value == value && this.blank == blank && this.setOne == setOne
    {
      this.value := value;
      this.blank := blank;
      this.setOne := setOne;
    }

    /** `set(_:at: [IndexPathValue])`: an empty path resets the map to blank, one segment
        delegates to the conformer, a longer path throws `deepSetIsNotImplementedYet` and
        leaves the map unchanged. */
    method Set(newMap: Option<M>, indexPath: seq<IndexPathValue>) returns (thrown: Option<OutMapError<E>>)
      modifies this
      ensures SetOutcome(value, thrown) == SetAtPath(old(value), blank, setOne, newMap, indexPath)
    {
      var count := |indexPath|;
      if count == 0 {
        value := blank;
        thrown := None;
      } else if count == 1 {
        var (m, e) := setOne(value, newMap, indexPath[0]);
        value := m;
        thrown := match e case Some(err) => Some(Conformer(err)) case None => None;
      } else {
        thrown := Some(DeepSetIsNotImplementedYet);
      }
    }

    /** The default `setup(_:)`: the child is left as it is. */
    method Setup(child: OutMap<M, E>)
      ensures unchanged(child)
    {
    }
  }

  // ---------------------------------------------------------------------------
  // `OutMapWithOptions` whose options are an option set

  /** The options after `applyOptions(given)`: the union of the old and the given options. */
  function Applied<O>(options: set<O>, given: set<O>): (r: set<O>)
    ensures options <= r && given <= r
    ensures forall o :: o in r ==> o in options || o in given
  {
    options + given
  }

  /** Applying is idempotent, order-independent, and never removes an option. */
  lemma AppliedFacts<O>(options: set<O>, given: set<O>, more: set<O>)
    ensures Applied(Applied(options, given), given) == Applied(options, given)
    ensures Applied(Applied(options, given), more) == Applied(Applied(options, more), given)
    ensures |Applied(options, given)| >= |options|
  {
    assert options <= Applied(options, given);
    SubsetSize(options, Applied(options, given));
  }

  lemma {:induction false} SubsetSize<O>(a: set<O>, b: set<O>)
    requires a <= b
    ensures |a| <= |b|
    decreases |a|
  {
    if a != {} {
      var x :| x in a;
      SubsetSize(a - {x}, b - {x});
    }
  }

  /** The options carried by an `OutMapWithOptions` conformer; the rest of the map is not
      touched by these members. */
  class OptionedOutMap<O(==)> {
    var options: set<O>

    constructor (options: set<O>)
      ensures this.options == options
    {
      this.options := options;
    }

    /** `applyOptions(_:)`. */
    method ApplyOptions(given: set<O>)
      modifies this
      ensures options == Applied(old(options), given)
    {
      options := options + given;
    }

    /** `adopt(_:)`: the child gains the parent's options; the parent is unchanged. A map
        cannot adopt itself, which Swift's exclusive access to `inout` arguments forbids. */
    method Adopt(child: OptionedOutMap<O>)
      requires child != this
      modifies child
      ensures child.options == Applied(old(child.options), options)
      ensures options == old(options)
    {
      child.ApplyOptions(options);
    }
  }
}
