/** Everything outside the agent: the include directory, nginx, certbot's directories and
    the state file. Every call may fail, and nginx loads the directory whenever it gets
    round to a reload signal - the agent's own or one sent by the certificate renewal
    hook (scripts/deploy.sh:69-77). */
module Host {
  import opened Wrappers
  import opened Sorting
  import opened Hostnames
  import opened Render
  import opened Lifecycle

  datatype ReadResult = Found(content: Content) | Missing | ReadError

  /** What nginx loads from the include directory: the vhosts and the reload receipt. */
  datatype Loaded = Loaded(routes: map<string, Content>, receipt: Option<Content>)

  /** The reloads the agent has asked for: how many, how many of them for a directory nginx -t
      had not just accepted, and the directory at each that was reported as signalled. */
  datatype Signals = Signals(asked: nat, blind: nat, sent: seq<Loaded>)
  {
    /** More may have been asked for since then, none of them blind. */
    ghost predicate Since(before: Signals) {
      before.asked <= asked && blind == before.blind && before.sent <= sent
    }
  }

  /** The wait for an answer: how many more pauses there is time for, if the time is set; the
      reloads signalled since the receipt was installed; and whether that receipt has been
      asked for since the last pause, and not been given. */
  datatype Wait = Wait(left: Option<nat>, signalled: nat, missed: bool)

  ghost predicate NonceIn(receipt: Option<Content>, used: set<nat>) {
    receipt.Some? && receipt.value.Proof? ==> receipt.value.nonce in used
  }

  ghost predicate Unborn(receipt: Option<Content>, nonce: nat) {
    receipt.Some? && receipt.value.Proof? ==> receipt.value.nonce != nonce
  }

  /** Nothing but f's certificate and lineage has come between s and m. */
  ghost predicate CertsCame(s: Sys, f: string, m: Sys) {
    && m == s.(certs := m.certs, lineages := m.lineages)
    && s.certs <= m.certs <= s.certs + {f} && s.lineages <= m.lineages <= s.lineages + {f}
  }

  /** ... has gone. */
  ghost predicate CertsWent(s: Sys, f: string, m: Sys) {
    && m == s.(certs := m.certs, lineages := m.lineages)
    && s.certs - {f} <= m.certs <= s.certs && s.lineages - {f} <= m.lineages <= s.lineages
  }

  class World {
    // the include directory, by kind of name
    var routes: map<string, Content>    // what nginx includes, other than
    var receipt: Option<Content>        // the reserved proof file
    var others: map<string, Content>    // temporary and foreign files

    var running: Loaded                 // the configuration nginx serves
    var pending: nat                    // reload signals nginx has not acted on
    ghost var outside: nat              // reloads signalled by others so far
    ghost var approved: Option<Loaded>  // what nginx -t last accepted, if it did
    ghost var signals: Signals          // what the agent has asked of nginx
    var wait: Wait                      // for nginx to confirm it
    ghost var faults: nat               // outside calls that have failed so far
    var used: set<nat>                  // nonces drawn so far
    var certs: set<string>
    var lineages: set<string>
    var saved: Image
    ghost var memory: Image             // the store in the agent's memory
    ghost var history: seq<Sys>         // every state passed through

    /** The directory is split by name, and nonces in use have been drawn. */
    ghost predicate Valid()
      reads this`routes, this`receipt, this`others, this`running, this`used
    {
      && (forall n | n in routes :: IsRouteName(n))
      && (forall n | n in others :: !IsConf(n))
      && NonceIn(receipt, used)
      && NonceIn(running.receipt, used)
    }

    ghost function Conf(): Loaded reads this`routes, this`receipt { Loaded(routes, receipt) }

    /** The reserved file, if there, is a receipt. */
    ghost predicate Owned() reads this`receipt { receipt.Some? ==> receipt.value.Proof? }

    /** The last reload nginx is known to have been signalled was for the directory as it is. */
    ghost predicate Signalled()
      reads this`signals, this`routes, this`receipt
    {
      signals.sent != [] && signals.sent[|signals.sent|-1] == Conf()
    }

    ghost function Names(): set<string>
      reads this`routes, this`receipt, this`others
    {
      routes.Keys + others.Keys + if receipt.Some? then {PROOF_CONF} else {}
    }

    ghost function View(): Sys
      reads this`routes, this`memory, this`saved, this`certs, this`lineages
    {
      Sys(routes, memory, saved, certs, lineages)
    }

    // ---- what calls have in common ----

    /** The agent has asked for no reload: none is outstanding that others did not ask
        for, and if none was and nobody else asked, nginx runs what it ran. */
    twostate predicate Calm()
      reads this`running, this`pending, this`outside, this`faults
    {
      && old(outside) <= outside && old(faults) <= faults
      && pending <= old(pending) + (outside - old(outside))
      && (old(pending) == 0 && outside == old(outside) ==> running == old(running))
    }

    /** nginx runs what it ran or has loaded the directory, which takes a signal. */
    twostate predicate Waited()
      reads this`running, this`pending, this`outside, this`faults, this`routes, this`receipt
    {
      && Calm()
      && (running == old(running) || (running == Conf() && pending < old(pending) + (outside - old(outside))))
    }

    /** nginx serves the vhosts it served, or these. */
    twostate predicate Serving(files: map<string, Content>)
      reads this`running
    {
      running.routes == old(running.routes) || running.routes == files
    }

    /** nginx runs what it ran, or the directory as it was. */
    twostate predicate Adopted()
      reads this`running
    {
      running == old(running) || running == old(Conf())
    }

    /** Every state passed through is the first or the last one. */
    twostate predicate Atomic()
      reads this`routes, this`memory, this`saved, this`certs, this`lineages, this`history
    {
      && old(history) <= history
      && forall i | |old(history)| <= i < |history| :: history[i] == old(View()) || history[i] == View()
    }

    /** In every state passed through at most f's certificate and lineage have come. */
    twostate predicate Issuing(f: string)
      reads this`history
    {
      && old(history) <= history
      && forall i | |old(history)| <= i < |history| :: CertsCame(old(View()), f, history[i])
    }

    /** ... have gone. */
    twostate predicate Deleting(f: string)
      reads this`history
    {
      && old(history) <= history
      && forall i | |old(history)| <= i < |history| :: CertsWent(old(View()), f, history[i])
    }

    // ---- nginx acting on its own ----

    /** Time passes: others may signal, nginx may act on outstanding signals, adopting
        the directory or refusing it. */
    method Elapse()
      requires Valid()
      modifies `running, `pending, `outside, `history
      ensures Valid() && Waited() && Atomic()
    {
      var signals: nat :| signals >= 0;
      outside, pending := outside + signals, pending + signals;
      while pending > 0
        invariant outside == old(outside) + signals && pending <= old(pending) + signals
        invariant running == old(running) || (running == Conf() && pending < old(pending) + signals)
        invariant history == old(history)
        decreases pending
      {
        var idle: bool := *;
        if idle { break; }
        pending := pending - 1;
        var adopts: bool := *;
        if adopts {
          running := Loaded(routes, receipt);
        }
      }
      history := history + [View()];
    }

    // ---- files ----

    /** os.ReadFile of a vhost file. */
    method ReadRoute(name: string) returns (r: ReadResult)
      requires Valid() && IsRouteName(name)
      modifies `running, `pending, `outside, `history, `faults
      ensures Valid() && Waited() && Atomic() && (r.ReadError? ==> old(faults) < faults)
      ensures r.Found? ==> name in routes && routes[name] == r.content
      ensures r.Missing? ==> name !in routes
    {
      Elapse();
      var fails: bool := *;
      if fails {
        faults := faults + 1;
        return ReadError;
      }
      r := if name in routes then Found(routes[name]) else Missing;
    }

    /** os.ReadFile of the reserved proof file. */
    method ReadReceipt() returns (r: ReadResult)
      requires Valid()
      modifies `running, `pending, `outside, `history, `faults
      ensures Valid() && Waited() && Atomic() && (r.ReadError? ==> old(faults) < faults)
      ensures r.Found? ==> receipt == Some(r.content)
      ensures r.Missing? ==> receipt == None
    {
      Elapse();
      var fails: bool := *;
      if fails {
        faults := faults + 1;
        return ReadError;
      }
      r := if receipt.Some? then Found(receipt.value) else Missing;
    }

    /** os.ReadDir: the names, sorted. */
    method ReadDir() returns (names: Option<seq<string>>)
      requires Valid()
      modifies `running, `pending, `outside, `history, `faults
      ensures Valid() && Waited() && Atomic() && (names.None? ==> old(faults) < faults)
      ensures names.Some? ==> IsListing(names.value, Names())
    {
      Elapse();
      var fails: bool := *;
      if fails {
        faults := faults + 1;
        return None;
      }
      var all := routes.Keys + others.Keys + if receipt.Some? then {PROOF_CONF} else {};
      var listed := Listed(all);
      names := Some(listed);
    }

    /** os.WriteFile on a temporary name. A failed write may leave anything there. */
    method WriteTemp(name: string, content: Content) returns (ok: bool)
      requires Valid() && !IsConf(name)
      modifies `others, `running, `pending, `outside, `history, `faults
      ensures Valid() && Waited() && Atomic() && (!ok ==> old(faults) < faults)
      ensures ok ==> name in others && others[name] == content
    {
      Elapse();
      ok := *;
      var written: Content := if ok then content else Foreign("");
      others := others[name := written];
      if !ok {
        faults := faults + 1;
      }
    }

    method RemoveTemp(name: string)
      requires Valid() && !IsConf(name)
      modifies `others, `running, `pending, `outside, `history
      ensures Valid() && Waited() && Atomic()
    {
      Elapse();
      var fails: bool := *;
      if !fails {
        others := others - {name};
      }
    }

    /** os.Rename of a temporary file onto a route file: atomic. */
    method RenameRoute(temp: string, name: string) returns (ok: bool)
      requires Valid() && IsRouteName(name) && temp in others
      modifies `routes, `others, `running, `pending, `outside, `history, `faults
      ensures Valid() && Calm() && Atomic() && (!ok ==> old(faults) < faults)
      ensures Adopted()
      ensures routes == if ok then old(routes[name := others[temp]]) else old(routes)
    {
      Elapse();
      ok := *;
      if ok {
        routes, others := routes[name := others[temp]], others - {temp};
      } else {
        faults := faults + 1;
      }
      history := history + [View()];
    }

    /** os.Rename of a temporary file onto the reserved proof file. */
    method RenameReceipt(temp: string) returns (ok: bool)
      requires Valid() && temp in others && others[temp].Proof? && others[temp].nonce in used
      modifies `receipt, `others, `wait, `running, `pending, `outside, `history, `faults
      ensures Valid() && Calm() && Atomic() && (!ok ==> old(faults) < faults)
      ensures Adopted()
      ensures receipt == if ok then Some(old(others[temp])) else old(receipt)
      ensures wait == if ok then old(wait).(signalled := 0) else old(wait)
    {
      Elapse();
      ok := *;
      if ok {
        receipt, others := Some(others[temp]), others - {temp};
        wait := wait.(signalled := 0);
      } else {
        faults := faults + 1;
      }
      history := history + [View()];
    }

    /** os.Remove of a vhost file; a missing file is reported apart from an error. */
    method RemoveRoute(name: string) returns (ok: bool, missing: bool)
      requires Valid() && IsRouteName(name)
      modifies `routes, `running, `pending, `outside, `history, `faults
      ensures Valid() && Calm() && Atomic() && (!ok && !missing ==> old(faults) < faults)
      ensures Adopted()
      ensures routes == if ok || missing then old(routes) - {name} else old(routes)
    {
      Elapse();
      var fails: bool := *;
      missing := !fails && name !in routes;
      ok := !fails && name in routes;
      if ok {
        routes := routes - {name};
      }
      if fails {
        faults := faults + 1;
      }
      history := history + [View()];
    }

    // ---- nginx ----

    /** A nonce never drawn before, or an error. */
    method DrawNonce() returns (nonce: Option<nat>)
      requires Valid()
      modifies `used, `faults
      ensures Valid() && old(used) <= used && old(faults) <= faults && (nonce.None? ==> old(faults) < faults)
      ensures nonce.Some? ==> nonce.value !in old(used) && nonce.value in used
    {
      var fails: bool := *;
      if fails {
        faults := faults + 1;
        return None;
      }
      assert FreshNonce(used) !in used;
      var k: nat :| k !in used;
      used := used + {k};
      nonce := Some(k);
    }

    /** nginx -t. */
    method TestConfig() returns (ok: bool)
      requires Valid()
      modifies `approved, `running, `pending, `outside, `history, `faults
      ensures Valid() && Waited() && Atomic() && (!ok ==> old(faults) < faults)
      ensures approved == if ok then Some(Conf()) else None
    {
      Elapse();
      ok := *;
      approved := if ok then Some(Conf()) else None;
      if !ok {
        faults := faults + 1;
      }
    }

    /** nginx -s reload. When it reports failure the signal may still have been sent. */
    method Signal() returns (ok: bool)
      requires Valid()
      modifies `signals, `wait, `running, `pending, `outside, `history, `faults
      ensures signals.asked == old(signals.asked) + 1
      ensures signals.blind == old(signals.blind) + if old(approved == Some(Conf())) then 0 else 1
      ensures signals.sent == old(signals.sent) + if ok then [Conf()] else []
      ensures wait == Wait(None, old(wait.signalled) + if ok then 1 else 0, false)
      ensures Valid() && Atomic() && old(faults) <= faults && (!ok ==> old(faults) < faults)
      ensures old(outside) <= outside && pending <= old(pending) + (outside - old(outside)) + 1
      ensures running == old(running) || (running == Conf() && pending < old(pending) + (outside - old(outside)) + 1)
    {
      ghost var accepted := approved == Some(Conf());
      Elapse();
      ok := *;
      var sent: bool := *;
      if ok || sent {
        pending := pending + 1;
      }
      if !ok {
        faults := faults + 1;
      }
      signals := Signals(signals.asked + 1, signals.blind + if accepted then 0 else 1,
                         signals.sent + if ok then [Conf()] else []);
      wait := Wait(None, wait.signalled + if ok then 1 else 0, false);
    }

    /** context.WithTimeout: from here on there is so much time. */
    method SetDeadline()
      modifies `wait
      ensures wait == old(wait).(left := wait.left) && wait.left.Some?
    {
      var left: nat :| left >= 0;
      wait := wait.(left := Some(left));
    }

    /** GET on the proof socket: answered from the configuration nginx runs, if at all. */
    method Ask(nonce: nat) returns (reply: Option<Content>)
      requires Valid()
      modifies `wait, `running, `pending, `outside, `history
      ensures Valid() && Waited() && Atomic()
      ensures reply.Some? ==> running.receipt == reply
      ensures wait == old(wait).(missed := receipt.Some? && receipt.value.Proof? && receipt.value.nonce == nonce
                                           && reply != receipt)
    {
      Elapse();
      reply := None;
      var fails: bool := *;
      if !fails && running.receipt.Some? && running.receipt.value.Proof? && running.receipt.value.nonce == nonce {
        reply := running.receipt;
      }
      wait := wait.(missed := receipt.Some? && receipt.value.Proof? && receipt.value.nonce == nonce
                              && reply != receipt);
    }

    /** A pause before the next question, or the time is up. Only who has had a reload
        signalled and has asked for the installed receipt in vain may wait. */
    method Pause() returns (up: bool)
      requires wait.left.Some? && wait.signalled > 0 && wait.missed
      modifies `wait, `faults
      ensures if up then faults == old(faults) + 1 && wait == old(wait).(left := None, missed := false)
              else faults == old(faults) && old(wait.left.value) > 0
                   && wait == old(wait).(left := Some(old(wait.left.value) - 1), missed := false)
    {
      up := wait.left.value == 0;
      wait := wait.(left := if up then None else Some(wait.left.value - 1), missed := false);
      if up {
        faults := faults + 1;
      }
    }

    // ---- certbot ----

    /** A certificate and its lineage come, one after the other. */
    method AddCert(f: string, cert: bool, lineage: bool)
      modifies `certs, `lineages, `history
      ensures certs == if cert then old(certs) + {f} else old(certs)
      ensures lineages == if lineage then old(lineages) + {f} else old(lineages)
      ensures Issuing(f)
    {
      certs := if cert then certs + {f} else certs;
      ghost var halfway := View();
      lineages := if lineage then lineages + {f} else lineages;
      history := history + [halfway, View()];
    }

    /** They go, the lineage first. */
    method DropCert(f: string, cert: bool, lineage: bool)
      modifies `certs, `lineages, `history
      ensures certs == if cert then old(certs) - {f} else old(certs)
      ensures lineages == if lineage then old(lineages) - {f} else old(lineages)
      ensures Deleting(f)
    {
      lineages := if lineage then lineages - {f} else lineages;
      ghost var halfway := View();
      certs := if cert then certs - {f} else certs;
      history := history + [halfway, View()];
    }

    /** certbot certonly: on success the certificate and its lineage exist. */
    method Certonly(f: string) returns (issue: Issue, error: string)
      requires Valid()
      modifies `certs, `lineages, `running, `pending, `outside, `history, `faults
      ensures Valid() && Waited() && Issuing(f) && (!issue.Issued? ==> old(faults) < faults)
      ensures certs == if issue.Issued? || issue.gotCert then old(certs) + {f} else old(certs)
      ensures lineages == if issue.Issued? || issue.gotLineage then old(lineages) + {f} else old(lineages)
    {
      Elapse();
      var ok: bool := *;
      var gotCert: bool := *;
      var gotLineage: bool := *;
      issue := if ok then Issued else IssueFailed(gotCert, gotLineage);
      error :| true;
      AddCert(f, ok || gotCert, ok || gotLineage);
      if !ok {
        faults := faults + 1;
      }
    }

    /** certbot delete: removes the lineage and the files, or is interrupted. */
    method DeleteCert(f: string) returns (ok: bool, error: string, ghost certLeft: bool, ghost lineageLeft: bool)
      requires Valid()
      modifies `certs, `lineages, `running, `pending, `outside, `history, `faults
      ensures Valid() && Waited() && Deleting(f) && (!ok ==> old(faults) < faults)
      ensures ok ==> !certLeft && !lineageLeft
      ensures certs == if certLeft then old(certs) else old(certs) - {f}
      ensures lineages == if lineageLeft then old(lineages) else old(lineages) - {f}
    {
      Elapse();
      ok := *;
      error :| true;
      var certGone: bool := *;
      var lineageGone: bool := *;
      DropCert(f, ok || certGone, ok || lineageGone);
      if !ok {
        faults := faults + 1;
      }
      certLeft, lineageLeft := !(ok || certGone), !(ok || lineageGone);
    }

    // ---- the state file ----

    /** Written to a temporary file and renamed: afterwards it is the new store or still
        the old one, never anything else. The memory has changed before. */
    method SaveState(image: Image) returns (ok: bool)
      requires Valid()
      modifies `memory, `saved, `running, `pending, `outside, `history, `faults
      ensures Valid() && Waited() && (!ok ==> old(faults) < faults)
      ensures memory == image && saved == if ok then image else old(saved)
      ensures old(history) <= history
      ensures forall i | |old(history)| <= i < |history| ::
                history[i] == Persisted(old(View()), image, false) || history[i] == Persisted(old(View()), image, true)
    {
      memory := image;
      history := history + [View()];
      Elapse();
      ok := *;
      if ok {
        saved := image;
      } else {
        faults := faults + 1;
      }
      history := history + [View()];
    }

    /** A restarted agent's memory is what it read from the state file: the empty store if
        there is none, and nothing if the file cannot be read or parsed. */
    method LoadState() returns (image: Option<Image>)
      requires Valid()
      modifies `memory, `history, `faults
      ensures Valid()
      ensures image.Some? ==> View() == Reloaded(old(View())) && image.value == memory && faults == old(faults)
      ensures image.None? ==> View() == old(View()) && history == old(history) && old(faults) < faults
      ensures old(history) <= history && forall i | |old(history)| <= i < |history| :: history[i] == View()
    {
      var fails: bool := *;
      if fails {
        faults := faults + 1;
        return None;
      }
      memory := saved;
      image := Some(saved);
      history := history + [View()];
    }
  }

  /** The names of a directory, collected in any order and sorted. */
  method Listed(all: set<string>) returns (names: seq<string>)
    ensures IsListing(names, all)
  {
    var rest, found: seq<string> := all, [];
    assert multiset(found) == multiset(all - rest);
    while rest != {}
      invariant rest <= all && multiset(found) == multiset(all - rest)
      decreases rest
    {
      var n :| n in rest;
      assert all - (rest - {n}) == (all - rest) + {n};
      found, rest := found + [n], rest - {n};
    }
    assert all - rest == all;
    StringOrder();
    SortSorted(StrLeq, found);
    names := Sort(StrLeq, found);
  }

  /** There is always a nonce that has not been drawn. */
  ghost function FreshNonce(used: set<nat>): (k: nat)
    ensures k !in used
  {
    Above(used) + 1
  }

  ghost function Above(used: set<nat>): (k: nat)
    ensures forall n | n in used :: n <= k
  {
    if used == {} then 0 else
      var n :| n in used;
      var k := Above(used - {n});
      assert forall x | x in used :: x == n || x in used - {n};
      if n > k then n else k
  }
}
