/** internal/certbot/certbot.go: live certificates and renewal lineages, two directories
    that outlive one another in both directions. */
module Certbot {
  import opened Wrappers
  import opened Lifecycle
  import opened Host

  class Provider {
    const world: World

    constructor (w: World)
      ensures world == w
    {
      world := w;
    }

    /** The certificate and key files are both there. */
    predicate Exists(f: string) reads world`certs { f in world.certs }

    /** certbot still tracks a renewal lineage, whether or not the files remain. */
    predicate LineageExists(f: string) reads world`lineages { f in world.lineages }

    /** Ensure: once it returns without an error the certificate exists; one that exists
        already is left alone. */
    method Ensure(f: string) returns (err: Option<string>, ghost issue: Issue)
      requires world.Valid()
      modifies world`certs, world`lineages, world`running, world`pending, world`outside, world`history, world`faults
      ensures world.Valid() && world.Waited() && world.Issuing(f)
      ensures world.View() == Ensured(old(world.View()), f, issue)
      ensures (err.None? <==> issue.Issued?) && (err.Some? ==> old(world.faults) < world.faults)
      ensures err.None? ==> Exists(f)
      ensures old(Exists(f)) ==> err.None? && world.View() == old(world.View()) && world.history == old(world.history)
    {
      if Exists(f) {
        return None, Issued;
      }
      var result, text := world.Certonly(f);
      err, issue := if result.Issued? then None else Some(text), result;
    }

    /** Delete: idempotent; once it returns without an error no lineage is left. An
        interrupted delete may leave the certificate, the lineage or both. */
    method Delete(f: string) returns (err: Option<string>, ghost certLeft: bool, ghost lineageLeft: bool)
      requires world.Valid()
      modifies world`certs, world`lineages, world`running, world`pending, world`outside, world`history, world`faults
      ensures world.Valid() && world.Waited() && world.Deleting(f)
      ensures (err.None? ==> !LineageExists(f)) && (err.Some? ==> old(world.faults) < world.faults)
      ensures old(!LineageExists(f)) ==>
                err.None? && world.View() == old(world.View()) && world.history == old(world.history)
      ensures old(LineageExists(f)) && err.None? ==> !Exists(f)
      ensures old(LineageExists(f)) ==>
                && (err.None? ==> !certLeft && !lineageLeft)
                && world.certs == (if certLeft then old(world.certs) else old(world.certs) - {f})
                && world.lineages == (if lineageLeft then old(world.lineages) else old(world.lineages) - {f})
    {
      if !LineageExists(f) {
        return None, true, false;
      }
      var ok, text, cert, lineage := world.DeleteCert(f);
      err, certLeft, lineageLeft := if ok then None else Some(text), cert, lineage;
    }
  }
}
