/** Removal of stale publications (cleanPublicationDirectory and
    publicationOwnerGone in internal/session/publication.go). */
module Cleanup {
  import opened Wrappers

  type Port = nat

  /** The 32 random bytes of a publication's capability. */
  type Token = nat

  /** A descriptor is written under a temporary name and then renamed. */
  datatype Path = Tmp(name: nat) | Json(name: nat) | Unrelated(name: nat)

  datatype Descriptor = Descriptor(port: Port, token: Token)

  /** `stale` is a modification time more than a minute ago; `content` is None
      for anything that is not a complete publication descriptor. */
  datatype File = File(stale: bool, content: Option<Descriptor>)

  type Files = map<Path, File>

  datatype ProbeOutcome = Refused | Status(code: int) | Ambiguous

  const NO_CONTENT := 204
  const FORBIDDEN := 403
  const GONE := 410

  /** publicationOwnerGone */
  predicate OwnerGone(outcome: ProbeOutcome) {
    outcome.Refused? || outcome == Status(FORBIDDEN) || outcome == Status(GONE)
  }

  /** An answer that leaves open whether the gateway lives: anything but a
      refused connection, 403 Forbidden and 410 Gone. */
  ghost predicate Unsettled(outcome: ProbeOutcome) {
    outcome.Ambiguous? || (outcome.Status? && outcome.code != 403 && outcome.code != 410)
  }

  /** A temporary file whose publisher must have crashed. */
  predicate StaleTemporary(files: Files, path: Path) {
    path in files && path.Tmp? && files[path].stale
  }

  /** A descriptor that a cleaner probes. */
  predicate Probed(files: Files, path: Path) {
    path in files && path.Json? && files[path].content.Some?
  }

  class Directory {
    var files: Files

    constructor (files: Files)
      ensures this.files == files
    {
      this.files := files;
    }

    method ReadDir() returns (entries: seq<Path>)
      ensures forall path :: path in entries <==> path in files
    {
      entries := [];
      var rest := files.Keys;
      while rest != {}
        invariant rest <= files.Keys
        invariant forall path :: path in entries <==> path in files && path !in rest
        decreases |rest|
      {
        var path :| path in rest;
        entries := entries + [path];
        rest := rest - {path};
      }
    }

    /** The first loop: stale temporary files go, descriptors are collected. */
    method CollectProbes(entries: seq<Path>) returns (probes: seq<Path>)
      requires forall path :: path in entries <==> path in files
      modifies this
      ensures forall path :: path in files <==> path in old(files) && !StaleTemporary(old(files), path)
      ensures forall path :: path in files ==> files[path] == old(files)[path]
      ensures forall path :: path in probes <==> Probed(old(files), path)
    {
      probes := [];
      ghost var before := files;
      for i := 0 to |entries|
        invariant forall path :: path in files <==> path in before && !(path in entries[..i] && StaleTemporary(before, path))
        invariant forall path :: path in files ==> files[path] == before[path]
        invariant forall path :: path in probes <==> path in entries[..i] && Probed(before, path)
      {
        var path := entries[i];
        assert entries[..i + 1] == entries[..i] + [path];
        if path in files {
          if path.Tmp? {
            if files[path].stale {
              files := files - {path};
            }
          } else if path.Json? && files[path].content.Some? {
            probes := probes + [path];
          }
        }
      }
      assert entries[..|entries|] == entries;
    }

    /** cleanPublicationDirectory with nobody else at work; `outcome` is what
        probing each descriptor yields.  What goes is exactly the stale
        temporary files and the descriptors whose owner is conclusively gone. */
    method Clean(outcome: Path -> ProbeOutcome)
      modifies this
      ensures forall path :: path in files <==>
        path in old(files) && !StaleTemporary(old(files), path) && !(Probed(old(files), path) && OwnerGone(outcome(path)))
      ensures forall path :: path in files ==> files[path] == old(files)[path]
      ensures forall name :: Tmp(name) in files <==> Tmp(name) in old(files) && !old(files)[Tmp(name)].stale
      ensures forall name :: Unrelated(name) in files <==> Unrelated(name) in old(files)
      ensures forall name :: Json(name) in files <==>
        && Json(name) in old(files)
        && (old(files)[Json(name)].content.None? || Unsettled(outcome(Json(name))))
    {
      var entries := ReadDir();
      var probes := CollectProbes(entries);
      var gone := new bool[|probes|];
      for i := 0 to |probes|
        invariant forall k :: 0 <= k < i ==> gone[k] == OwnerGone(outcome(probes[k]))
        modifies gone
      {
        gone[i] := OwnerGone(outcome(probes[i]));
      }
      ghost var collected := files;
      for i := 0 to |probes|
        invariant forall path :: path in files <==>
          path in collected && !(path in probes[..i] && OwnerGone(outcome(path)))
        invariant forall path :: path in files ==> files[path] == collected[path]
        invariant forall k :: 0 <= k < |probes| ==> gone[k] == OwnerGone(outcome(probes[k]))
      {
        assert probes[..i + 1] == probes[..i] + [probes[i]];
        if gone[i] {
          files := files - {probes[i]};
        }
      }
      assert probes[..|probes|] == probes;
    }
  }
}
