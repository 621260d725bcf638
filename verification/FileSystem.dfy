/** A directory as the publication protocols see it: names bound to inodes, the part
    of the bindings that survives a power loss, and the one inode the protocol
    creates. Other processes act between any two system calls. */
module FileSystem {
  import opened Collections

  type Name = string
  type Ino = nat

  /** The created inode. `version` counts modifications, as a change time does. */
  datatype Inode = Inode(content: seq<Byte>, synced: bool, version: nat)

  datatype Fs = Fs(names: map<Name, Ino>, durable: map<Name, Ino>, data: Inode)

  /** The two names and the fresh inode of one publication. */
  datatype Job = Job(staging: Name, final: Name, created: Ino, payload: seq<Byte>)

  predicate Bound(fs: Fs, name: Name, ino: Ino) {
    name in fs.names && fs.names[name] == ino
  }

  function Links(names: map<Name, Ino>, ino: Ino): set<Name> {
    set n | n in names && names[n] == ino
  }

  /** The link count of an inode. */
  function LinkCount(names: map<Name, Ino>, ino: Ino): nat {
    |Links(names, ino)|
  }

  function Unbind(names: map<Name, Ino>, name: Name): map<Name, Ino> {
    names - {name}
  }

  /** Other processes may bind and unbind any name except the random staging name;
      the created inode is not theirs, so they never bind a name to it. */
  ghost predicate OthersMay(before: map<Name, Ino>, after: map<Name, Ino>, job: Job) {
    && (job.staging in before <==> job.staging in after)
    && (job.staging in before ==> after[job.staging] == before[job.staging])
    && (forall n :: n in after && after[n] == job.created ==> n in before && before[n] == job.created)
  }

  /** Only the staging and the final name are ever bound to the created inode. */
  ghost predicate OnlyOurNames(names: map<Name, Ino>, job: Job) {
    forall n :: n in names && names[n] == job.created ==> n == job.staging || n == job.final
  }

  /** Every name bound before is bound as before, the staging name apart. */
  ghost predicate KeepsBindings(before: map<Name, Ino>, after: map<Name, Ino>, job: Job) {
    forall n :: n in before && n != job.staging ==> n in after && after[n] == before[n]
  }

  lemma LinkCountByNames(names: map<Name, Ino>, job: Job)
    requires OnlyOurNames(names, job) && job.staging != job.final
    ensures LinkCount(names, job.created) ==
            (if job.staging in names && names[job.staging] == job.created then 1 else 0)
            + (if job.final in names && names[job.final] == job.created then 1 else 0)
  {
    var s := if job.staging in names && names[job.staging] == job.created then {job.staging} else {};
    var f := if job.final in names && names[job.final] == job.created then {job.final} else {};
    assert Links(names, job.created) == s + f;
  }
}
