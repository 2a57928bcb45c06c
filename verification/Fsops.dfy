/** internal/manager/fsops.go: atomic writes, and the swap and rollback of the managed
    file set. The reserved proof file is never among the files touched. */
module Fsops {
  import opened Wrappers
  import opened Sorting
  import opened Hostnames
  import opened Render
  import opened Lifecycle
  import opened Host

  /** readFileMaybe: a missing file is not an error. */
  method ReadFileMaybe(w: World, name: string) returns (backup: Option<Content>, ok: bool)
    requires w.Valid() && IsRouteName(name)
    modifies w`running, w`pending, w`outside, w`history, w`faults
    ensures w.Valid() && w.Waited() && w.Atomic()
    ensures backup == if ok && name in w.routes then Some(w.routes[name]) else None
    ensures !ok ==> old(w.faults) < w.faults
  {
    var r := w.ReadRoute(name);
    match r {
      case ReadError => backup, ok := None, false;
      case Missing => backup, ok := None, true;
      case Found(content) => backup, ok := Some(content), true;
    }
  }

  /** writeFile: through a temporary file, so that a reader sees the old content or the
      new, and a failure changes no managed file. */
  method WriteFile(w: World, name: string, content: Content) returns (ok: bool)
    requires w.Valid() && IsRouteName(name)
    modifies w`routes, w`others, w`running, w`pending, w`outside, w`history, w`faults
    ensures w.Valid() && w.Calm() && w.Atomic() && w.Adopted()
    ensures w.routes == if ok then old(w.routes)[name := content] else old(w.routes)
    ensures !ok ==> old(w.faults) < w.faults
  {
    var temp := TempName(name);
    TempNotConf(name);
    ok := w.WriteTemp(temp, content);
    if ok {
      ok := w.RenameRoute(temp, name);
    }
  }

  /** The managed files with one file put back to what it was. */
  function Restored(files: map<string, Content>, name: string, backup: Option<Content>): map<string, Content> {
    if backup.Some? then files[name := backup.value] else files - {name}
  }

  /** Undoing one write brings the files back, if the backup is what there was; with no
      backup the file is removed. */
  lemma RestoredBack(files: map<string, Content>, name: string, content: Content, backup: Option<Content>)
    requires backup.Some? ==> name in files && files[name] == backup.value
    ensures Restored(files[name := content], name, backup) == if backup.Some? then files else files - {name}
    ensures name !in files ==> files - {name} == files
  {}

  /** restoreFile: rewrite the backup, or remove what was written. */
  method RestoreFile(w: World, name: string, backup: Option<Content>) returns (ok: bool)
    requires w.Valid() && IsRouteName(name)
    modifies w`routes, w`others, w`running, w`pending, w`outside, w`history, w`faults
    ensures w.Valid() && w.Calm() && w.Atomic() && w.Adopted()
    ensures w.routes == if ok then Restored(old(w.routes), name, backup) else old(w.routes)
    ensures !ok ==> old(w.faults) < w.faults
  {
    if backup.Some? {
      ok := WriteFile(w, name, backup.value);
    } else {
      var removed, missing := w.RemoveRoute(name);
      ok := removed || missing;
    }
  }

  /** os.ReadDir, where the order does not matter. */
  method Entries(w: World) returns (names: Option<seq<string>>)
    requires w.Valid()
    modifies w`running, w`pending, w`outside, w`history, w`faults
    ensures w.Valid() && w.Waited() && w.Atomic()
    ensures names.None? ==> old(w.faults) < w.faults
    ensures names.Some? ==> (forall n | n in w.routes :: n in names.value)
                            && (forall n | n in names.value && IsRouteName(n) :: n in w.routes)
  {
    names := w.ReadDir();
    if names.Some? {
      ListingFacts(names.value, w.Names());
    }
  }

  /** readConfDir: every managed file, or an error. */
  method ReadConfDir(w: World) returns (files: Option<map<string, Content>>)
    requires w.Valid()
    modifies w`running, w`pending, w`outside, w`history, w`faults
    ensures w.Valid() && w.Waited() && w.Atomic()
    ensures if files.Some? then files.value == w.routes else old(w.faults) < w.faults
  {
    hide IsConf, IsRouteName;
    var entries := Entries(w);
    if entries.None? {
      return None;
    }
    var names, out: map<string, Content> := entries.value, map[];
    for i := 0 to |names|
      invariant w.Valid() && w.Waited() && w.Atomic()
      invariant forall n | n in out :: n in w.routes && out[n] == w.routes[n]
      invariant forall n | n in w.routes && n !in out :: n in names[i..]
    {
      assert names[i..] == [names[i]] + names[i+1..];
      if IsRouteName(names[i]) {
        var r := w.ReadRoute(names[i]);
        if !r.Found? {
          return None;
        }
        out := out[names[i] := r.content];
      }
    }
    assert names[|names|..] == [];
    assert out == w.routes;
    files := Some(out);
  }

  // ---- the swap ----

  ghost predicate AllSwapping(s: Sys, past: seq<Sys>, from: nat, desired: map<string, Content>) {
    forall i | from <= i < |past| :: Swapping(s, past[i], desired)
  }

  twostate predicate SwappedSoFar(w: World, desired: map<string, Content>)
    reads w
  {
    && old(w.history) <= w.history
    && Swapping(old(w.View()), w.View(), desired)
    && AllSwapping(old(w.View()), w.history, |old(w.history)|, desired)
  }

  /** nginx serves what it served or some state of the swap. */
  twostate predicate ServingMix(w: World, prior: map<string, Content>, desired: map<string, Content>)
    reads w`running
  {
    w.running.routes == old(w.running.routes) || Mixed(w.running.routes, prior, desired)
  }

  lemma SwappingMixed(s: Sys, m: Sys, desired: map<string, Content>)
    requires Swapping(s, m, desired)
    ensures Mixed(m.files, s.files, desired)
  {}

  /** One more file written or removed. */
  lemma SwapStep(s: Sys, past: seq<Sys>, from: nat, before: Sys, now: Sys, longer: seq<Sys>,
                 desired: map<string, Content>)
    requires from <= |past| && past <= longer && AllSwapping(s, past, from, desired)
    requires Swapping(s, before, desired) && Swapping(s, now, desired)
    requires forall i | |past| <= i < |longer| :: longer[i] == before || longer[i] == now
    ensures AllSwapping(s, longer, from, desired)
  {}

  /** Going back from a swap: each file is still as it was or as desired. */
  lemma SwapBack(s: Sys, past: seq<Sys>, from: nat, mid: Sys, now: Sys, longer: seq<Sys>, desired: map<string, Content>)
    requires from <= |past| && past <= longer && AllSwapping(s, past, from, desired)
    requires Swapping(s, mid, desired) && Swapping(mid, now, s.files) && AllSwapping(mid, longer, |past|, s.files)
    ensures AllSwapping(s, longer, from, desired) && Swapping(s, now, desired)
  {
    forall i | from <= i < |longer| ensures Swapping(s, longer[i], desired) {
      if i >= |past| { assert Swapping(mid, longer[i], s.files); }
    }
  }

  /** The managed files once the names in done have been written. */
  ghost predicate Overwritten(files: map<string, Content>, before: map<string, Content>,
                              desired: map<string, Content>, done: set<string>) {
    && files.Keys == before.Keys + done
    && (forall n | n in files ::
          if n in done then n in desired && files[n] == desired[n] else n in before && files[n] == before[n])
  }

  lemma OverwriteStep(files: map<string, Content>, before: map<string, Content>,
                      desired: map<string, Content>, done: set<string>, n: string)
    requires Overwritten(files, before, desired, done) && n in desired
    ensures Overwritten(files[n := desired[n]], before, desired, done + {n})
  {}

  lemma OverwrittenMixed(s: Sys, m: Sys, desired: map<string, Content>, done: set<string>)
    requires m == s.(files := m.files) && Overwritten(m.files, s.files, desired, done)
    ensures Swapping(s, m, desired)
  {}

  /** writeConfDir: write every desired file, then remove every other managed one. On
      success the managed set is exactly desired; after a failure each file is as it was or
      as desired. */
  method WriteConfDir(w: World, desired: map<string, Content>) returns (ok: bool)
    requires w.Valid() && forall n | n in desired :: IsRouteName(n)
    modifies w`routes, w`others, w`running, w`pending, w`outside, w`history, w`faults
    ensures w.Valid() && w.Calm() && SwappedSoFar(w, desired) && ServingMix(w, old(w.routes), desired)
    ensures if ok then w.routes == desired else old(w.faults) < w.faults
  {
    hide IsRouteName;
    ghost var s, from := w.View(), |w.history|;
    ok := WriteAll(w, desired);
    if ok {
      ok := RemoveOthers(w, s, from, desired);
    }
  }

  /** The first half of writeConfDir; Go ranges over the map in any order. */
  method WriteAll(w: World, desired: map<string, Content>) returns (ok: bool)
    requires w.Valid() && forall n | n in desired :: IsRouteName(n)
    modifies w`routes, w`others, w`running, w`pending, w`outside, w`history, w`faults
    ensures w.Valid() && w.Calm() && SwappedSoFar(w, desired) && ServingMix(w, old(w.routes), desired)
    ensures ok ==> forall n | n in desired :: n in w.routes && w.routes[n] == desired[n]
    ensures !ok ==> old(w.faults) < w.faults
  {
    hide IsRouteName, Overwritten, Swapping, Mixed;
    ghost var s, done: set<string> := w.View(), {};
    var todo := desired.Keys;
    NothingWritten(s, desired);
    while todo != {}
      invariant todo <= desired.Keys && desired.Keys == todo + done
      invariant w.Valid() && w.Calm() && SwappedSoFar(w, desired) && ServingMix(w, old(w.routes), desired)
      invariant Overwritten(w.routes, s.files, desired, done)
      decreases todo
    {
      var n :| n in todo;
      ghost var before, past := w.View(), w.history;
      SwappingMixed(s, before, desired);
      ok := WriteFile(w, n, desired[n]);
      OverwriteStep(before.files, s.files, desired, done, n);
      OverwrittenMixed(s, w.View(), desired, if ok then done + {n} else done);
      SwapStep(s, past, |old(w.history)|, before, w.View(), w.history, desired);
      if !ok {
        return;
      }
      todo, done := todo - {n}, done + {n};
    }
    ok := true;
    AllWritten(w.routes, s.files, desired, done);
  }

  lemma NothingWritten(s: Sys, desired: map<string, Content>)
    ensures Overwritten(s.files, s.files, desired, {}) && Swapping(s, s, desired)
  {}

  lemma AllWritten(files: map<string, Content>, before: map<string, Content>,
                   desired: map<string, Content>, done: set<string>)
    requires Overwritten(files, before, desired, done) && done == desired.Keys
    ensures forall n | n in desired :: n in files && files[n] == desired[n]
  {}

  lemma RemovedSwapping(s: Sys, before: Sys, now: Sys, desired: map<string, Content>, n: string)
    requires Swapping(s, before, desired) && now == before.(files := now.files)
    requires now.files == before.files || now.files == before.files - {n}
    ensures Swapping(s, now, desired) && Mixed(before.files, s.files, desired)
  {}

  /** The second half of writeConfDir, in a swap that began in state s. */
  method RemoveOthers(w: World, ghost s: Sys, ghost from: nat, desired: map<string, Content>) returns (ok: bool)
    requires w.Valid() && Swapping(s, w.View(), desired)
    requires from <= |w.history| && AllSwapping(s, w.history, from, desired)
    requires forall n | n in desired :: n in w.routes && w.routes[n] == desired[n]
    modifies w`routes, w`others, w`running, w`pending, w`outside, w`history, w`faults
    ensures w.Valid() && w.Calm() && Swapping(s, w.View(), desired) && ServingMix(w, s.files, desired)
    ensures old(w.history) <= w.history && AllSwapping(s, w.history, from, desired)
    ensures if ok then w.routes == desired else old(w.faults) < w.faults
  {
    hide IsConf, IsRouteName, Swapping, Mixed;
    SwappingMixed(s, w.View(), desired);
    var entries := Entries(w);
    if entries.None? {
      return false;
    }
    var names := entries.value;
    for i := 0 to |names|
      invariant w.Valid() && w.Calm() && Swapping(s, w.View(), desired) && ServingMix(w, s.files, desired)
      invariant old(w.history) <= w.history && AllSwapping(s, w.history, from, desired)
      invariant forall n | n in desired :: n in w.routes && w.routes[n] == desired[n]
      invariant forall n | n in w.routes && n !in desired :: n in names[i..]
    {
      assert names[i..] == [names[i]] + names[i+1..];
      if IsRouteName(names[i]) && names[i] !in desired {
        ghost var before, past := w.View(), w.history;
        var removed, missing := w.RemoveRoute(names[i]);
        RemovedSwapping(s, before, w.View(), desired, names[i]);
        SwapStep(s, past, from, before, w.View(), w.history, desired);
        if !removed && !missing {
          return false;
        }
      }
    }
    assert names[|names|..] == [];
    assert w.routes == desired;
    ok := true;
  }

  /** restoreConfDir: back to exactly the files there were. */
  method RestoreConfDir(w: World, prior: map<string, Content>) returns (ok: bool)
    requires w.Valid() && forall n | n in prior :: IsRouteName(n)
    modifies w`routes, w`others, w`running, w`pending, w`outside, w`history, w`faults
    ensures w.Valid() && w.Calm() && SwappedSoFar(w, prior) && ServingMix(w, old(w.routes), prior)
    ensures if ok then w.routes == prior else old(w.faults) < w.faults
  {
    ok := WriteConfDir(w, prior);
  }

  lemma TempNotConf(name: string)
    ensures !IsConf(TempName(name))
  {
    assert TempName(name) == name + "." + "tmp";
    ExtAppend(name, "tmp");
    assert ("." + "tmp")[1] == 't' && CONF[1] == 'c';
  }
}
