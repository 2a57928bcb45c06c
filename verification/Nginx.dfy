/** internal/nginx: test before reload, and the receipt that proves which configuration
    nginx runs. Every test installs a fresh receipt - a nonce nobody has drawn before and
    a digest of the directory - so a configuration that answers it can only be one loaded
    after the test began. */
module Nginx {
  import opened Wrappers
  import opened Sorting
  import opened Hostnames
  import opened Receipt
  import opened Render
  import opened Host

  ghost function Texts(files: map<string, Content>): map<string, string> { map n | n in files :: Text(files[n]) }

  lemma TextNames(files: map<string, Content>)
    ensures Texts(files).Keys == files.Keys
  {}

  /** The receipt vouches for the vhosts it was loaded with. */
  ghost predicate Vouched(l: Loaded) {
    l.receipt.Some? && l.receipt.value.Proof? && l.receipt.value.digest == DirStream(Texts(l.routes))
  }

  /** One receipt vouches for one set of vhosts, byte for byte. */
  lemma ReceiptIdentifies(a: Loaded, b: Loaded)
    requires Vouched(a) && Vouched(b) && a.receipt == b.receipt
    requires forall n | n in a.routes || n in b.routes :: NUL !in n
    ensures Texts(a.routes) == Texts(b.routes)
  {
    DirStreamInjective(Texts(a.routes), Texts(b.routes));
  }

  class Exec {
    const world: World
    const verified: bool                 // a proof directory is configured
    var proofURI: Option<nat>            // the nonce in the URI
    var proofExpected: Option<Content>

    ghost predicate Valid()
      reads this, world
    {
      && world.Valid()
      && (proofExpected.Some? ==>
            && proofURI.Some? && proofExpected.value.Proof? && proofExpected.value.nonce == proofURI.value
            && world.receipt == proofExpected)
    }

    /** The receipt of the last test is installed, vouches for the vhosts on disk, and is
        run by nginx only as part of what is on disk. */
    ghost predicate Armed()
      reads this, world`routes, world`receipt, world`running
    {
      && proofExpected.Some? && Vouched(world.Conf())
      && (world.running.receipt == proofExpected ==> world.running == world.Conf())
    }

    constructor (w: World, verify: bool)
      requires w.Valid()
      ensures world == w && verified == verify && Valid() && proofExpected == None
    {
      world, verified := w, verify;
      proofURI, proofExpected := None, None;
    }

    /** checkProofOwner: the reserved file is missing or a receipt. */
    method CheckProofOwner() returns (ok: bool)
      requires Valid()
      modifies world`running, world`pending, world`outside, world`history, world`faults
      ensures Valid() && world.Waited() && world.Atomic()
      ensures if ok then world.Owned() else old(world.faults) < world.faults || !world.Owned()
    {
      var r := world.ReadReceipt();
      ok := r.Missing? || (r.Found? && r.content.Proof?);
    }

    /** os.ReadDir: every vhost is listed, and every listed vhost is there. */
    method List() returns (names: Option<seq<string>>, ghost all: set<string>)
      requires Valid()
      modifies world`running, world`pending, world`outside, world`history, world`faults
      ensures Valid() && world.Waited() && world.Atomic()
      ensures names.None? ==> old(world.faults) < world.faults
      ensures names.Some? ==> IsListing(names.value, all) && world.routes.Keys <= all
      ensures names.Some? ==> forall n | n in names.value && IsRouteName(n) :: n in world.routes
    {
      names := world.ReadDir();
      all := world.Names();
      if names.Some? {
        ListingFacts(names.value, all);
      }
    }

    /** The stream hashed for the receipt: every vhost of the directory, in name order. */
    method HashDir() returns (stream: Option<string>)
      requires Valid()
      modifies world`running, world`pending, world`outside, world`history, world`faults
      ensures Valid() && world.Waited() && world.Atomic()
      ensures if stream.Some? then stream.value == DirStream(Texts(world.routes)) else old(world.faults) < world.faults
    {
      hide DirStream, StreamOf, IsListing, IsRouteName, Texts;
      var names, all := List();
      if names.None? {
        return None;
      }
      stream := HashFiles(names.value);
      TextNames(world.routes);
      StreamOfListing(names.value, all, Texts(world.routes));
    }

    /** The first half of prepareProof. */
    method Digest() returns (stream: Option<string>)
      requires Valid()
      modifies world`running, world`pending, world`outside, world`history, world`faults
      ensures Valid() && world.Waited() && world.Atomic()
      ensures stream.Some? ==> stream.value == DirStream(Texts(world.routes)) && world.Owned()
      ensures stream.None? ==> old(world.faults) < world.faults || !world.Owned()
    {
      hide DirStream, Texts;
      stream := None;
      var owned := CheckProofOwner();
      if owned {
        stream := HashDir();
      }
    }

    method HashFiles(names: seq<string>) returns (stream: Option<string>)
      requires Valid() && forall n | n in names && IsRouteName(n) :: n in world.routes
      modifies world`running, world`pending, world`outside, world`history, world`faults
      ensures Valid() && world.Waited() && world.Atomic()
      ensures if stream.Some? then stream.value == StreamOf(names, Texts(world.routes))
              else old(world.faults) < world.faults
    {
      ghost var dir := Texts(world.routes);
      var hash := "";
      for i := 0 to |names|
        invariant Valid() && world.Waited() && world.Atomic()
        invariant hash == StreamOf(names[..i], dir)
      {
        StreamSnoc(names, i, dir);
        if IsRouteName(names[i]) {
          var r := world.ReadRoute(names[i]);
          if !r.Found? {
            return None;
          }
          hash := hash + Chunk(File(names[i], Text(r.content)));
        }
      }
      assert names[..|names|] == names;
      stream := Some(hash);
    }

    /** Nobody else reloading, nothing is outstanding that was not before; and nginx runs
        the receipt of the last test only if it has acted on a signal since. */
    twostate predicate Counted()
      reads this, world
    {
      && world.pending <= old(world.pending) + (world.outside - old(world.outside))
      && proofURI.Some?
      && (Unborn(world.running.receipt, proofURI.value)
          || (world.running == world.Conf()
               && world.pending < old(world.pending) + (world.outside - old(world.outside))))
    }

    /** prepareProof: a fresh receipt for what is on disk, installed atomically. */
    method PrepareProof() returns (ok: bool)
      requires Valid()
      modifies `proofURI, `proofExpected
      modifies world`receipt, world`others, world`used, world`wait, world`running
      modifies world`pending, world`outside, world`history, world`faults
      ensures Valid() && world.Calm() && world.Atomic() && world.Serving(world.routes)
      ensures if old(world.Owned()) then world.Owned() else !ok && world.receipt == old(world.receipt)
      ensures !ok ==> proofExpected == None && (old(world.faults) < world.faults || !old(world.Owned()))
      ensures ok ==> Armed() && Counted()
    {
      hide DirStream;
      proofExpected, proofURI := None, None;
      var digest := Digest();
      if digest.None? {
        return false;
      }
      ok := Install(digest.value);
    }

    /** The second half: a nonce is drawn and the receipt is written to a temporary file
        and renamed. */
    method Install(digest: string) returns (ok: bool)
      requires Valid() && proofExpected == None && digest == DirStream(Texts(world.routes))
      modifies `proofURI, `proofExpected
      modifies world`receipt, world`others, world`used, world`wait, world`running
      modifies world`pending, world`outside, world`history, world`faults
      ensures Valid() && world.Calm() && world.Atomic() && world.Serving(world.routes)
      ensures old(world.Owned()) ==> world.Owned()
      ensures !ok ==> proofExpected == None && old(world.faults) < world.faults
      ensures ok ==> Armed() && Counted()
    {
      hide DirStream, Texts;
      var nonce := world.DrawNonce();
      if nonce.None? {
        return false;
      }
      ok := Put(nonce.value, Proof(nonce.value, digest));
    }

    method Put(nonce: nat, expected: Content) returns (ok: bool)
      requires Valid() && proofExpected == None && nonce in world.used
      requires Unborn(world.receipt, nonce) && Unborn(world.running.receipt, nonce)
      requires expected.Proof? && expected.nonce == nonce
      modifies `proofURI, `proofExpected
      modifies world`receipt, world`others, world`wait, world`running
      modifies world`pending, world`outside, world`history, world`faults
      ensures Valid() && world.Calm() && world.Atomic() && world.Serving(world.routes)
      ensures old(world.Owned()) ==> world.Owned()
      ensures !ok ==> proofExpected == None && old(world.faults) < world.faults
      ensures ok ==> world.receipt == proofExpected == Some(expected) && Counted()
    {
      hide IsConf, Decimal;
      var temp := ".reload-proof-" + Decimal(nonce);
      ProofTemp(nonce);
      ok := Replace(temp, expected);
      world.RemoveTemp(temp);
      if ok {
        proofURI, proofExpected := Some(nonce), Some(expected);
      }
    }

    /** Written under a temporary name and renamed, or nothing has changed. */
    method Replace(temp: string, expected: Content) returns (ok: bool)
      requires Valid() && proofExpected == None
      requires !IsConf(temp) && expected.Proof? && expected.nonce in world.used
      modifies world`receipt, world`others, world`wait, world`running
      modifies world`pending, world`outside, world`history, world`faults
      ensures Valid() && world.Calm() && world.Atomic() && world.Adopted()
      ensures world.receipt == if ok then Some(expected) else old(world.receipt)
      ensures !ok ==> old(world.faults) < world.faults
    {
      hide IsConf;
      ok := world.WriteTemp(temp, expected);
      if ok {
        ok := world.RenameReceipt(temp);
      }
    }

    /** Test: nginx -t, on a directory that holds a fresh receipt. */
    method Test() returns (ok: bool)
      requires Valid()
      modifies `proofURI, `proofExpected
      modifies world`receipt, world`others, world`used, world`wait, world`approved, world`running
      modifies world`pending, world`outside, world`history, world`faults
      ensures Valid() && world.Calm() && world.Atomic() && world.Serving(world.routes)
      ensures if old(world.Owned()) then world.Owned() else world.receipt == old(world.receipt)
      ensures ok && verified ==> old(world.Owned())
      ensures ok ==> world.approved == Some(world.Conf())
      ensures !ok && verified ==> proofExpected == None
      ensures !ok ==> old(world.faults) < world.faults || (verified && !old(world.Owned()))
      ensures ok && verified ==> Armed() && Counted()
    {
      hide DirStream;
      if verified {
        var prepared := PrepareProof();
        if !prepared {
          return false;
        }
      }
      ok := world.TestConfig();
      if !ok {
        proofExpected := None;
      }
    }

    /** One question. */
    method Poll() returns (ok: bool)
      requires Valid() && proofExpected.Some?
      modifies world`wait, world`running, world`pending, world`outside, world`history
      ensures Valid() && world.Waited() && world.Atomic()
      ensures if ok then world.running.receipt == proofExpected else world.wait == old(world.wait).(missed := true)
    {
      var reply := world.Ask(proofURI.value);
      ok := reply == proofExpected;
    }

    /** waitForProof: polls until the receipt is answered or the time is up. */
    method WaitForProof() returns (ok: bool)
      requires Valid() && proofExpected.Some? && world.wait.signalled > 0
      modifies world`wait, world`running, world`pending, world`outside, world`history, world`faults
      ensures Valid() && world.Waited() && world.Atomic()
      ensures if ok then world.running.receipt == proofExpected else old(world.faults) < world.faults
    {
      world.SetDeadline();
      var up := false;
      while !up
        invariant Valid() && world.Waited() && world.Atomic()
        invariant world.wait.signalled > 0 && (if up then old(world.faults) < world.faults else world.wait.left.Some?)
        decreases if up then 0 else world.wait.left.value + 1
      {
        ok := Poll();
        if ok {
          return;
        }
        up := world.Pause();
      }
      ok := false;
    }

    /** Reload: refused without the receipt of a test that passed, otherwise one reload is
        asked for, and confirmed by the receipt. Whether the directory is the one that was
        tested is the caller's business. */
    method Reload() returns (ok: bool)
      requires Valid()
      modifies world`signals, world`wait, world`running, world`pending, world`outside, world`history, world`faults
      ensures Valid() && world.Atomic() && old(world.outside) <= world.outside && old(world.faults) <= world.faults
      ensures !ok ==> old(world.faults) < world.faults || (verified && proofExpected == None)
      ensures verified && proofExpected == None ==>
                !ok && world.history == old(world.history) && world.signals == old(world.signals)
      ensures !(verified && proofExpected == None) ==> world.signals.asked == old(world.signals.asked) + 1
      ensures old(world.approved == Some(world.Conf())) ==> world.signals.blind == old(world.signals.blind)
      ensures world.signals.sent == old(world.signals.sent) + [world.Conf()]
              || (!ok && world.signals.sent == old(world.signals.sent))
      ensures world.running == old(world.running) || world.running == world.Conf()
      ensures ok && verified ==> world.running.receipt == proofExpected && proofExpected.Some?
      ensures ok && verified && old(Armed()) ==> world.running == world.Conf()
      ensures ok && verified && old(Armed()) && Unborn(old(world.running.receipt), proofURI.value) ==>
                world.pending <= old(world.pending) + (world.outside - old(world.outside))
      ensures world.pending <= old(world.pending) + (world.outside - old(world.outside)) + 1
    {
      if verified && proofExpected == None {
        return false;
      }
      ok := world.Signal();
      if !ok || !verified {
        return;
      }
      ok := WaitForProof();
    }
  }

  lemma ProofTemp(nonce: nat)
    ensures !IsConf(".reload-proof-" + Decimal(nonce))
  {
    var rest := "reload-proof-" + Decimal(nonce);
    assert ".reload-proof-" + Decimal(nonce) == "" + "." + rest;
    assert forall c | c in Decimal(nonce) :: c != '.' && c != '/';
    ExtAppend("", rest);
    assert ("." + rest)[1] == 'r' && CONF[1] == 'c';
  }

  // ---- the listing, filtered ----

  /** The vhosts among the names, in the order they are listed. */
  ghost function Kept(names: seq<string>, keys: set<string>): seq<string> {
    if names == [] then []
    else
      var front, last := names[..|names|-1], names[|names|-1];
      Kept(front, keys) + if last in keys then [last] else []
  }

  ghost function StreamOf(names: seq<string>, dir: map<string, string>): string {
    if names == [] then ""
    else
      var front, last := names[..|names|-1], names[|names|-1];
      StreamOf(front, dir) + if last in dir then Chunk(File(last, dir[last])) else ""
  }

  lemma StreamSnoc(names: seq<string>, i: nat, dir: map<string, string>)
    requires i < |names|
    ensures StreamOf(names[..i+1], dir) ==
              StreamOf(names[..i], dir) + if names[i] in dir then Chunk(File(names[i], dir[names[i]])) else ""
  {
    assert names[..i+1][..i] == names[..i];
  }

  ghost predicate Distinct(names: seq<string>) { forall i, j :: 0 <= i < j < |names| ==> names[i] != names[j] }

  lemma {:induction false} KeptMembers(names: seq<string>, keys: set<string>)
    ensures forall n :: n in Kept(names, keys) <==> n in names && n in keys
  {
    if names != [] {
      var front, last := names[..|names|-1], names[|names|-1];
      KeptMembers(front, keys);
      assert names == front + [last];
    }
  }

  lemma {:induction false} KeptOrdered(rel: (string, string) -> bool, names: seq<string>, keys: set<string>)
    requires Sorted(rel, names)
    ensures Sorted(rel, Kept(names, keys))
  {
    if names != [] {
      var front, last := names[..|names|-1], names[|names|-1];
      KeptOrdered(rel, front, keys);
      KeptMembers(front, keys);
      forall n | n in front ensures rel(n, last) {
        var i :| 0 <= i < |front| && front[i] == n;
        assert names[i] == n;
      }
    }
  }

  lemma {:induction false} DistinctMultiset(names: seq<string>, s: set<string>)
    requires Distinct(names) && forall n :: n in names <==> n in s
    ensures multiset(names) == multiset(s)
  {
    if names != [] {
      var front, last := names[..|names|-1], names[|names|-1];
      assert names == front + [last];
      assert forall n :: n in front <==> n in s - {last};
      DistinctMultiset(front, s - {last});
      assert s == (s - {last}) + {last};
    } else {
      assert s == {};
    }
  }

  lemma {:induction false} StreamOfKept(names: seq<string>, dir: map<string, string>)
    ensures forall n | n in Kept(names, dir.Keys) :: n in dir
    ensures StreamOf(names, dir) == Encode(FilesAlong(Kept(names, dir.Keys), dir))
  {
    if names != [] {
      var front, last := names[..|names|-1], names[|names|-1];
      StreamOfKept(front, dir);
      if last in dir {
        EncodeSnoc(FilesAlong(Kept(front, dir.Keys), dir), File(last, dir[last]));
        assert FilesAlong(Kept(names, dir.Keys), dir) ==
                 FilesAlong(Kept(front, dir.Keys), dir) + [File(last, dir[last])];
      } else {
        assert Kept(names, dir.Keys) == Kept(front, dir.Keys);
      }
    }
  }

  ghost function FilesAlong(names: seq<string>, dir: map<string, string>): (files: seq<File>)
    requires forall n | n in names :: n in dir
    ensures |files| == |names|
  {
    seq<File>(|names|, i requires 0 <= i < |names| => File(names[i], dir[names[i]]))
  }

  /** Hashing the vhosts along a listing of the whole directory gives the directory's stream. */
  lemma StreamOfListing(names: seq<string>, all: set<string>, dir: map<string, string>)
    requires IsListing(names, all) && dir.Keys <= all
    ensures StreamOf(names, dir) == DirStream(dir)
  {
    ListingFacts(names, all);
    KeptMembers(names, dir.Keys);
    KeptOrdered(StrLeq, names, dir.Keys);
    KeptOrdered((a, b) => a != b, names, dir.Keys);
    KeptIsListing(Kept(names, dir.Keys), dir.Keys);
    StreamOfKept(names, dir);
    assert FilesAlong(Listing(dir.Keys), dir) == FilesOf(dir);
  }

  lemma KeptIsListing(names: seq<string>, s: set<string>)
    requires Sorted(StrLeq, names) && Distinct(names) && forall n :: n in names <==> n in s
    ensures names == Listing(s)
  {
    DistinctMultiset(names, s);
    StringOrder();
    OneArrangement(StrLeq, multiset(s), names, Listing(s));
  }
}
