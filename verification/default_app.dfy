/** Marking the default hosted application by name (setDefaultApp). */
module DefaultApp {
  import opened Wrappers
  import opened Settings

  /** Some configured application carries the target name. */
  predicate HasApp(rs: seq<AppRecord>, target: string)
  {
    exists i :: 0 <= i < |rs| && rs[i].name == target
  }

  /** The settings after the update: each flag says whether that entry's name
      is the target; nothing else about an entry changes. */
  function MarkDefault(rs: seq<AppRecord>, target: string): (out: seq<AppRecord>)
    ensures |out| == |rs|
    ensures forall i :: 0 <= i < |rs| ==> out[i].isDefaultApp == (rs[i].name == target)
    ensures forall i :: 0 <= i < |rs| ==>
      out[i].name == rs[i].name && out[i].expressAppFile == rs[i].expressAppFile
      && out[i].envVariables == rs[i].envVariables
  {
    if rs == [] then []
    else [rs[0].(isDefaultApp := rs[0].name == target)] + MarkDefault(rs[1..], target)
  }

  /** The fold of the update: false at the start, then or-ed with each new flag,
      left to right. It is true exactly when some entry carries the target name. */
  function AnyDefault(rs: seq<AppRecord>, target: string): (some: bool)
    ensures some <==> HasApp(rs, target)
  {
    if rs == [] then false
    else AnyDefault(rs[..|rs| - 1], target) || rs[|rs| - 1].name == target
  }

  /** The line logged when no entry carries the requested name. */
  function MissingDefaultMessage(target: string): string
  {
    "Error setting the default app: there is no app named " + target
  }

  /** Objects whose values are those of `before` with the flags updated hold
      `MarkDefault(before, target)`. */
  lemma RecordsMarked(objs: seq<AppSettings>, before: seq<AppRecord>, target: string)
    requires |objs| == |before|
    requires forall k :: 0 <= k < |objs| ==>
      objs[k].Record() == before[k].(isDefaultApp := before[k].name == target)
    ensures Records(objs) == MarkDefault(before, target)
  {
  }

  /** The `reduce` pass: sets every entry's isDefaultApp to whether its name is
      `target`, in one pass over the shared array, and folds whether any entry
      matched. */
  method MarkDefaultFlags(apps: array<AppSettings>, target: string) returns (someDefault: bool)
    modifies Elements(apps)`isDefaultApp
    ensures forall i :: 0 <= i < apps.Length ==> apps[i].isDefaultApp == (apps[i].name == target)
    ensures someDefault <==> exists i :: 0 <= i < apps.Length && apps[i].name == target
  {
    someDefault := false;
    var i := 0;
    while i < apps.Length
      invariant 0 <= i <= apps.Length
      invariant forall k :: 0 <= k < i ==> apps[k].isDefaultApp == (apps[k].name == target)
      invariant someDefault <==> exists k :: 0 <= k < i && apps[k].name == target
    {
      apps[i].isDefaultApp := apps[i].name == target;
      someDefault := someDefault || apps[i].isDefaultApp;
      i := i + 1;
    }
  }

  /** Marks the default application and reports, as `error`, the line the
      source logs when no entry carries `defaultAppName`. Only the flags
      change: the records afterwards are `MarkDefault` of the records before. */
  method SetDefaultApp(apps: array<AppSettings>, defaultAppName: string)
    returns (someDefault: bool, error: Option<string>)
    modifies Elements(apps)`isDefaultApp
    ensures forall i :: 0 <= i < apps.Length ==> apps[i].isDefaultApp == (apps[i].name == defaultAppName)
    ensures Records(apps[..]) == MarkDefault(old(Records(apps[..])), defaultAppName)
    ensures someDefault <==> HasApp(old(Records(apps[..])), defaultAppName)
    ensures someDefault == AnyDefault(old(Records(apps[..])), defaultAppName)
    ensures error == if someDefault then None else Some(MissingDefaultMessage(defaultAppName))
  {
    ghost var before := Records(apps[..]);
    someDefault := MarkDefaultFlags(apps, defaultAppName);
    forall k | 0 <= k < apps.Length
      ensures apps[k].Record() == before[k].(isDefaultApp := before[k].name == defaultAppName)
    {
      assert before[k] == old(apps[k].Record());
    }
    RecordsMarked(apps[..], before, defaultAppName);
    error := if someDefault then None else Some(MissingDefaultMessage(defaultAppName));
  }
}

module DefaultAppProperties {
  import opened Settings
  import opened DefaultApp

  /** Number of entries whose flag is set. */
  function CountDefaults(rs: seq<AppRecord>): nat
  {
    if rs == [] then 0 else (if rs[0].isDefaultApp then 1 else 0) + CountDefaults(rs[1..])
  }

  /** Number of entries carrying the given name. */
  function CountNamed(rs: seq<AppRecord>, target: string): nat
  {
    if rs == [] then 0 else (if rs[0].name == target then 1 else 0) + CountNamed(rs[1..], target)
  }

  /** No two entries share a name. */
  predicate DistinctNames(rs: seq<AppRecord>)
  {
    forall i, j :: 0 <= i < j < |rs| ==> rs[i].name != rs[j].name
  }

  /** Running the update a second time with the same name changes nothing. */
  lemma MarkDefaultIdempotent(rs: seq<AppRecord>, target: string)
    ensures MarkDefault(MarkDefault(rs, target), target) == MarkDefault(rs, target)
  {
  }

  /** The result does not depend on the flags the entries carried before: a
      stale flag on a non-matching entry is cleared. */
  lemma MarkDefaultIgnoresOldFlags(rs: seq<AppRecord>, ss: seq<AppRecord>, target: string)
    requires |rs| == |ss|
    requires forall i :: 0 <= i < |rs| ==> rs[i].(isDefaultApp := false) == ss[i].(isDefaultApp := false)
    ensures MarkDefault(rs, target) == MarkDefault(ss, target)
  {
  }

  /** After the update, the number of defaults is the number of entries with the
      target name: duplicates all become defaults, and when no entry matches
      there is none. */
  lemma {:induction false} DefaultsCountNamed(rs: seq<AppRecord>, target: string)
    ensures CountDefaults(MarkDefault(rs, target)) == CountNamed(rs, target)
  {
    if rs != [] {
      DefaultsCountNamed(rs[1..], target);
      assert MarkDefault(rs, target)[1..] == MarkDefault(rs[1..], target);
    }
  }

  /** With distinct names, at most one entry carries the target name, and one
      does exactly when the target is configured. */
  lemma {:induction false} DistinctNamesCountNamed(rs: seq<AppRecord>, target: string)
    requires DistinctNames(rs)
    ensures CountNamed(rs, target) == if HasApp(rs, target) then 1 else 0
  {
    if rs != [] {
      var tail := rs[1..];
      assert DistinctNames(tail) by {
        forall i, j | 0 <= i < j < |tail| ensures tail[i].name != tail[j].name {
          assert tail[i] == rs[i + 1] && tail[j] == rs[j + 1];
        }
      }
      DistinctNamesCountNamed(tail, target);
      if rs[0].name == target {
        assert !HasApp(tail, target) by {
          forall k | 0 <= k < |tail| ensures tail[k].name != target {
            assert tail[k] == rs[k + 1];
          }
        }
      } else {
        assert HasApp(rs, target) <==> HasApp(tail, target) by {
          if HasApp(rs, target) {
            var k :| 0 <= k < |rs| && rs[k].name == target;
            assert tail[k - 1] == rs[k];
          }
          if HasApp(tail, target) {
            var k :| 0 <= k < |tail| && tail[k].name == target;
            assert rs[k + 1] == tail[k];
          }
        }
      }
    }
  }

  /** When names are distinct, the update leaves exactly one default if the name
      is configured and none otherwise. */
  lemma UniqueDefault(rs: seq<AppRecord>, target: string)
    requires DistinctNames(rs)
    ensures CountDefaults(MarkDefault(rs, target)) == if HasApp(rs, target) then 1 else 0
  {
    DefaultsCountNamed(rs, target);
    DistinctNamesCountNamed(rs, target);
  }

  /** Calling the method twice with the same name leaves the settings as one call does. */
  method SetDefaultAppTwice(apps: array<AppSettings>, defaultAppName: string)
    modifies Elements(apps)`isDefaultApp
    ensures Records(apps[..]) == MarkDefault(old(Records(apps[..])), defaultAppName)
  {
    ghost var before := Records(apps[..]);
    var _, _ := SetDefaultApp(apps, defaultAppName);
    var _, _ := SetDefaultApp(apps, defaultAppName);
    MarkDefaultIdempotent(before, defaultAppName);
  }
}
