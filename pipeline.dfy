/** The appender pipeline: an ordered collection of appenders without
    repeated instances, which may be absent (never created, or torn down) as
    distinct from empty. */
module Pipelines {
  import opened LoggingTypes
  import opened Appenders

  // ---------------------------------------------------------------------------
  // Sequence operations the pipeline is specified with.

  predicate NoDuplicates<T(==)>(s: seq<T>)
  {
    forall i, j :: 0 <= i < j < |s| ==> s[i] != s[j]
  }

  /** Position of the first occurrence of `x` (`Vector.indexOf`). */
  function FirstIndex<T(==)>(s: seq<T>, x: T): (r: Option<nat>)
    ensures r.None? <==> x !in s
    ensures r.Some? ==> r.value < |s| && s[r.value] == x
    ensures r.Some? ==> forall j :: 0 <= j < r.value ==> s[j] != x
    decreases |s|
  {
    if s == [] then None
    else if s[0] == x then Some(0)
    else match FirstIndex(s[1..], x)
      case None => None
      case Some(i) => Some(i + 1)
  }

  function RemoveAt<T>(s: seq<T>, i: nat): seq<T>
    requires i < |s|
  {
    s[..i] + s[i + 1..]
  }

  /** `Vector.removeElement`: drops the first occurrence of `x`, if any. */
  function RemoveFirst<T(==)>(s: seq<T>, x: T): (r: seq<T>)
    ensures x in s ==> |r| == |s| - 1
    ensures x !in s ==> r == s
  {
    match FirstIndex(s, x)
    case None => s
    case Some(i) => RemoveAt(s, i)
  }

  /** Reference definition: `s` with every occurrence of `x` filtered out. */
  function Without<T(==)>(s: seq<T>, x: T): (r: seq<T>)
    ensures x !in r
    ensures forall k :: 0 <= k < |r| ==> r[k] in s && r[k] != x
    ensures forall k :: 0 <= k < |s| && s[k] != x ==> s[k] in r
    decreases |s|
  {
    if s == [] then []
    else (if s[0] == x then [] else [s[0]]) + Without(s[1..], x)
  }

  /** Position of the first appender in `s` whose name is `n`
      (`n.equals(appender.getName())`, false for an unnamed appender). */
  function FirstNamed(s: seq<Appender>, n: string): (r: Option<nat>)
    reads s
    ensures r.Some? ==> r.value < |s| && s[r.value].name == Some(n)
    ensures r.Some? ==> forall j :: 0 <= j < r.value ==> s[j].name != Some(n)
    ensures r.None? ==> forall j :: 0 <= j < |s| ==> s[j].name != Some(n)
    decreases |s|
  {
    if s == [] then None
    else if s[0].name == Some(n) then Some(0)
    else match FirstNamed(s[1..], n)
      case None => None
      case Some(i) => Some(i + 1)
  }

  /** The list after `removeAppender(name)` found something to remove: at most one
      entry goes, the first one carrying the name. */
  function RemoveFirstNamed(s: seq<Appender>, n: string): (r: seq<Appender>)
    reads s
    ensures |r| == (if FirstNamed(s, n).Some? then |s| - 1 else |s|)
  {
    match FirstNamed(s, n)
    case None => s
    case Some(i) => RemoveAt(s, i)
  }

  /** The list after `addAppender(x)`. */
  function Added(l: Option<seq<Appender>>, x: Appender?): Option<seq<Appender>>
  {
    if x == null then l
    else if l.Some? && x in l.value then l
    else Some(l.GetOr([]) + [x])
  }

  /** The list after `addAppender` on each of `xs`, in order. */
  function AddedAll(l: Option<seq<Appender>>, xs: seq<Appender?>): Option<seq<Appender>>
    decreases |xs|
  {
    if xs == [] then l else AddedAll(Added(l, xs[0]), xs[1..])
  }

  function Elements(s: seq<Appender>): set<Appender>
  {
    set a | a in s
  }

  function NonNull(xs: seq<Appender?>): set<Appender>
  {
    set a: Appender | a in xs
  }

  /** The journal entries of one call `c` made on each of the first `n` of `s`, front to back. */
  function CallsOnPrefix(s: seq<Appender>, n: nat, c: Call): (r: seq<Entry>)
    requires n <= |s|
    ensures |r| == n
  {
    if n == 0 then [] else CallsOnPrefix(s, n - 1, c) + [Entry(s[n - 1], c)]
  }

  /** The journal entries of one call `c` made on each of `s`, front to back. */
  function CallsInOrder(s: seq<Appender>, c: Call): (r: seq<Entry>)
    ensures |r| == |s|
  {
    CallsOnPrefix(s, |s|, c)
  }

  // ---------------------------------------------------------------------------
  // Properties of the specification.

  /** One more call is one more entry at the end of the journal. */
  lemma CallsOnPrefixSnoc(prefix: seq<Entry>, s: seq<Appender>, n: nat, c: Call)
    requires n < |s|
    ensures prefix + CallsOnPrefix(s, n + 1, c) == prefix + CallsOnPrefix(s, n, c) + [Entry(s[n], c)]
  {
  }

  /** The `k`-th entry is the call on the `k`-th appender, so the entries follow
      the list's order. */
  lemma {:induction false} CallsOnPrefixAt(s: seq<Appender>, n: nat, c: Call)
    requires n <= |s|
    ensures forall k :: 0 <= k < n ==> CallsOnPrefix(s, n, c)[k] == Entry(s[k], c)
  {
    if n > 0 {
      CallsOnPrefixAt(s, n - 1, c);
    }
  }

  lemma CallsInOrderAt(s: seq<Appender>, c: Call)
    ensures forall k :: 0 <= k < |s| ==> CallsInOrder(s, c)[k] == Entry(s[k], c)
  {
    CallsOnPrefixAt(s, |s|, c);
  }


  lemma DistinctTail<T>(s: seq<T>)
    requires NoDuplicates(s) && s != []
    ensures NoDuplicates(s[1..]) && s[0] !in s[1..]
  {
  }

  lemma {:induction false} DistinctCardinality(s: seq<Appender>)
    requires NoDuplicates(s)
    ensures |Elements(s)| == |s|
    decreases |s|
  {
    if s != [] {
      DistinctTail(s);
      assert Elements(s) == {s[0]} + Elements(s[1..]);
      DistinctCardinality(s[1..]);
    }
  }

  /** Adding keeps the list free of repeated instances. */
  lemma AddedKeepsDistinct(l: Option<seq<Appender>>, x: Appender?)
    requires NoDuplicates(l.GetOr([]))
    ensures NoDuplicates(Added(l, x).GetOr([]))
    ensures Elements(Added(l, x).GetOr([])) == Elements(l.GetOr([])) + NonNull([x])
  {
    var s := l.GetOr([]);
    if x != null && !(l.Some? && x in s) {
      assert Added(l, x).GetOr([]) == s + [x];
      assert Elements(s + [x]) == Elements(s) + {x};
    }
  }

  lemma NonNullCons(xs: seq<Appender?>)
    requires xs != []
    ensures NonNull(xs) == NonNull([xs[0]]) + NonNull(xs[1..])
    ensures xs[0] == null ==> NonNull([xs[0]]) == {}
    ensures xs[0] != null ==> NonNull([xs[0]]) == {xs[0]}
  {
    assert xs == [xs[0]] + xs[1..];
  }

  /** Any sequence of adds: never the same instance twice, and the list holds
      exactly the distinct non-null appenders offered. */
  lemma {:induction false} AddedAllDistinct(l: Option<seq<Appender>>, xs: seq<Appender?>)
    requires NoDuplicates(l.GetOr([]))
    ensures NoDuplicates(AddedAll(l, xs).GetOr([]))
    ensures Elements(AddedAll(l, xs).GetOr([])) == Elements(l.GetOr([])) + NonNull(xs)
    decreases |xs|
  {
    if xs == [] {
      assert NonNull(xs) == {};
    } else {
      var l' := Added(l, xs[0]);
      AddedKeepsDistinct(l, xs[0]);
      AddedAllDistinct(l', xs[1..]);
      NonNullCons(xs);
    }
  }

  /** Starting from no list, the length after any sequence of adds is the number
      of distinct non-null appenders offered. */
  lemma AddedAllLength(xs: seq<Appender?>)
    ensures |AddedAll(None, xs).GetOr([])| == |NonNull(xs)|
  {
    AddedAllDistinct(None, xs);
    DistinctCardinality(AddedAll(None, xs).GetOr([]));
  }

  /** Adds starting from an absent list create it exactly when a non-null appender is offered. */
  lemma {:induction false} AddedAllCreates(l: Option<seq<Appender>>, xs: seq<Appender?>)
    ensures AddedAll(l, xs).Some? <==> l.Some? || NonNull(xs) != {}
    decreases |xs|
  {
    if xs != [] {
      AddedAllCreates(Added(l, xs[0]), xs[1..]);
      NonNullCons(xs);
    }
  }

  lemma {:induction false} WithoutAbsent<T>(s: seq<T>, x: T)
    requires x !in s
    ensures Without(s, x) == s
    decreases |s|
  {
    if s != [] {
      WithoutAbsent(s[1..], x);
    }
  }

  /** Filtering keeps a list free of repeated elements. */
  lemma {:induction false} WithoutKeepsDistinct<T>(s: seq<T>, x: T)
    requires NoDuplicates(s)
    ensures NoDuplicates(Without(s, x))
    decreases |s|
  {
    if s != [] {
      DistinctTail(s);
      WithoutKeepsDistinct(s[1..], x);
      var w := Without(s[1..], x);
      assert s[0] !in w;
      if s[0] != x {
        assert Without(s, x) == [s[0]] + w;
      }
    }
  }

  lemma RemoveAtCons<T>(s: seq<T>, i: nat)
    requires i + 1 < |s|
    ensures RemoveAt(s, i + 1) == [s[0]] + RemoveAt(s[1..], i)
  {
    var t := s[1..];
    assert s[..i + 1] == [s[0]] + t[..i];
    assert s[i + 2..] == t[i + 1..];
  }

  /** Removing the first occurrence of `x` from a list that does not start with `x`. */
  lemma RemoveFirstCons<T>(s: seq<T>, x: T)
    requires s != [] && s[0] != x
    ensures RemoveFirst(s, x) == [s[0]] + RemoveFirst(s[1..], x)
  {
    match FirstIndex(s[1..], x)
    case None =>
    case Some(i) =>
      assert FirstIndex(s, x) == Some(i + 1);
      RemoveAtCons(s, i);
  }

  /** On a list without repeated instances, removing the first occurrence
      removes every occurrence and keeps the others in their order. */
  lemma {:induction false} RemoveFirstOfDistinct<T>(s: seq<T>, x: T)
    requires NoDuplicates(s)
    ensures RemoveFirst(s, x) == Without(s, x)
    ensures NoDuplicates(RemoveFirst(s, x))
    decreases |s|
  {
    WithoutKeepsDistinct(s, x);
    if s != [] {
      DistinctTail(s);
      if s[0] == x {
        WithoutAbsent(s[1..], x);
        assert FirstIndex(s, x) == Some(0);
        assert RemoveAt(s, 0) == s[1..];
      } else {
        RemoveFirstOfDistinct(s[1..], x);
        RemoveFirstCons(s, x);
        assert Without(s, x) == [s[0]] + Without(s[1..], x);
      }
    }
  }

  /** The loop of `appendLoopOnAppenders`: `doAppend(event)` on each element of
      the vector, from index 0 up. */
  method DoAppendEach(list: seq<Appender>, event: LoggingEvent, ghost journal: Journal)
    requires NoDuplicates(list)
    requires forall a :: a in list ==> a.journal == journal
    modifies Elements(list), journal`entries
    ensures journal.entries == old(journal.entries) + CallsInOrder(list, DoAppendCall(event))
    ensures forall a :: a in list ==> a.State() == DoAppendStep(old(a.State()), event)
  {
    var size := |list|;
    for i := 0 to size
      invariant journal.entries == old(journal.entries) + CallsOnPrefix(list, i, DoAppendCall(event))
      invariant forall j {:trigger list[j].State()} :: 0 <= j < i ==> list[j].State() == DoAppendStep(old(list[j].State()), event)
      invariant forall j {:trigger list[j].State()} :: i <= j < size ==> list[j].State() == old(list[j].State())
    {
      var appender := list[i];
      assert appender.journal == journal;
      appender.DoAppend(event);
      CallsOnPrefixSnoc(old(journal.entries), list, i, DoAppendCall(event));
    }
  }

  /** The loop of `removeAllAppenders`: `close()` on each element of the
      vector, from index 0 up. */
  method CloseEach(list: seq<Appender>, ghost journal: Journal)
    requires NoDuplicates(list)
    requires forall a :: a in list ==> a.journal == journal
    modifies Elements(list), journal`entries
    ensures journal.entries == old(journal.entries) + CallsInOrder(list, CloseCall)
    ensures forall a :: a in list ==> a.State() == CloseStep(old(a.State()))
  {
    var len := |list|;
    for i := 0 to len
      invariant journal.entries == old(journal.entries) + CallsOnPrefix(list, i, CloseCall)
      invariant forall j {:trigger list[j].State()} :: 0 <= j < i ==> list[j].State() == CloseStep(old(list[j].State()))
      invariant forall j {:trigger list[j].State()} :: i <= j < len ==> list[j].State() == old(list[j].State())
    {
      var a := list[i];
      assert a.journal == journal;
      a.Close();
      CallsOnPrefixSnoc(old(journal.entries), list, i, CloseCall);
    }
  }

  // ---------------------------------------------------------------------------

  class AppenderPipelineImpl {
    var appenderList: Option<seq<Appender>>

    /** The list never holds the same instance twice. */
    predicate Valid()
      reads this
    {
      NoDuplicates(List())
    }

    /** The registered appenders; none when the list is absent. */
    function List(): seq<Appender>
      reads this
    {
      appenderList.GetOr([])
    }

    function Registered(): set<Appender>
      reads this
    {
      Elements(List())
    }

    constructor ()
      ensures appenderList == None && Valid()
    {
      appenderList := None;
    }

    /** Every registered appender records its calls into `journal`. */
    predicate RecordsTo(journal: Journal)
      reads this
    {
      forall a :: a in List() ==> a.journal == journal
    }

    /** A snapshot of the registered appenders; none when the list is absent. */
    function GetAllAppenders(): (r: Option<seq<Appender>>)
      reads this
      ensures r.None? <==> appenderList.None?
      ensures r.Some? ==> r.value == List()
    {
      appenderList
    }

    method AddAppender(newAppender: Appender?)
      requires Valid()
      modifies this`appenderList
      ensures Valid()
      ensures newAppender == null || newAppender in old(List()) ==> appenderList == old(appenderList)
      ensures newAppender != null && newAppender !in old(List()) ==> appenderList == Some(old(List()) + [newAppender])
      ensures appenderList == Added(old(appenderList), newAppender)
    {
      if newAppender == null {
        return;
      }
      if appenderList == None {
        appenderList := Some([]);
      }
      if newAppender !in appenderList.value {
        appenderList := Some(appenderList.value + [newAppender]);
      }
    }

    /** Hands `event` to every registered appender once, in list order. */
    method AppendLoopOnAppenders(event: LoggingEvent, ghost journal: Journal) returns (size: nat)
      requires Valid() && RecordsTo(journal)
      modifies Registered(), journal`entries
      ensures size == |old(List())|
      ensures appenderList == old(appenderList)
      ensures journal.entries == old(journal.entries) + CallsInOrder(old(List()), DoAppendCall(event))
      ensures forall a :: a in old(List()) ==> a.State() == DoAppendStep(old(a.State()), event)
    {
      size := 0;
      if appenderList != None {
        size := |appenderList.value|;
        DoAppendEach(appenderList.value, event, journal);
      }
    }

    /** The first appender, in list order, named `name`; null when the list is
        absent, `name` is null, or nothing matches. */
    method GetAppender(name: Option<string>) returns (r: Appender?)
      ensures appenderList == None || name == None ==> r == null
      ensures r != null ==> exists i :: 0 <= i < |List()| && List()[i] == r && r.name == name && name.Some?
                                       && forall j :: 0 <= j < i ==> List()[j].name != name
      ensures r == null && name.Some? ==> forall a :: a in List() ==> a.name != name
    {
      if appenderList == None || name == None {
        return null;
      }
      var list := appenderList.value;
      var size := |list|;
      for i := 0 to size
        invariant forall j :: 0 <= j < i ==> list[j].name != name
      {
        var appender := list[i];
        if appender.name == name {
          assert List()[i] == appender;
          return appender;
        }
      }
      return null;
    }

    /** Whether that very instance is registered. */
    method IsAttached(appender: Appender?) returns (b: bool)
      ensures b <==> appender != null && appender in List()
    {
      if appenderList == None || appender == null {
        return false;
      }
      var list := appenderList.value;
      var size := |list|;
      for i := 0 to size
        invariant appender !in list[..i]
      {
        var a := list[i];
        if a == appender {
          return true;
        }
        assert list[..i + 1] == list[..i] + [a];
      }
      assert list[..size] == list;
      return false;
    }

    /** Closes every registered appender once, in list order, then drops the list. */
    method RemoveAllAppenders(ghost journal: Journal)
      requires Valid() && RecordsTo(journal)
      modifies this`appenderList, Registered(), journal`entries
      ensures Valid()
      ensures appenderList == None && GetAllAppenders() == None
      ensures journal.entries == old(journal.entries) + CallsInOrder(old(List()), CloseCall)
      ensures forall a :: a in old(List()) ==> a.State() == CloseStep(old(a.State()))
    {
      if appenderList != None {
        CloseEach(appenderList.value, journal);
        // `removeAllElements` empties the vector before it is dropped; only the drop is observable.
        appenderList := None;
      }
    }

    /** Removes that very instance, without closing it. */
    method RemoveAppender(appender: Appender?)
      requires Valid()
      modifies this`appenderList
      ensures Valid()
      ensures appender == null || old(appenderList) == None ==> appenderList == old(appenderList)
      ensures appender != null && old(appenderList) != None ==> appenderList == Some(RemoveFirst(old(List()), appender))
      ensures appender != null ==> appender !in List() && List() == Without(old(List()), appender)
      ensures forall a :: a in old(List()) ==> a.State() == old(a.State())
    {
      if appender == null || appenderList == None {
        return;
      }
      RemoveFirstOfDistinct(appenderList.value, appender);
      appenderList := Some(RemoveFirst(appenderList.value, appender));
    }

    /** Removes the first appender named `name` and only that one, without closing it. */
    method RemoveAppenderNamed(name: Option<string>)
      requires Valid()
      modifies this`appenderList
      ensures Valid()
      ensures name == None || old(appenderList) == None ==> appenderList == old(appenderList)
      ensures name != None && old(appenderList) != None ==> appenderList == Some(RemoveFirstNamed(old(List()), name.value))
      ensures forall a :: a in old(List()) ==> a.State() == old(a.State())
    {
      if name == None || appenderList == None {
        return;
      }
      var list := appenderList.value;
      var size := |list|;
      for i := 0 to size
        invariant appenderList == Some(list)
        invariant forall j :: 0 <= j < i ==> list[j].name != name
      {
        if list[i].name == name {
          appenderList := Some(RemoveAt(list, i));
          assert FirstNamed(list, name.value) == Some(i);
          break;
        }
      }
    }
  }
}
