/**
 * The individual changes `ch` makes to one file (a mode change and an
 * ownership change), how each is derived from the file's snapshot and the
 * options, and how each is applied through the operating system.
 */
module ChangeEngine {
  import opened Wrappers
  import opened Users
  import opened Modes
  import opened RunOptions
  import opened Files
  import opened LibcError

  /**
   * The two system calls the changes make, as functions from their
   * arguments to the status they return (0 on success).
   */
  datatype System = System(
    chmod: (string, ModeT) -> int,
    chown: (string, Id, Id) -> int)

  /** Set `file`'s mode to `mode`. */
  datatype ChMod = ChMod(file: File, options: Options, mode: ModeT)

  /**
   * Set `file`'s owner and group ids to `uid` and `gid`; `owner` and
   * `group` are present for the properties that actually change.
   */
  datatype ChOwn = ChOwn(
    file: File, options: Options,
    owner: Option<User>, uid: Id,
    group: Option<Group>, gid: Id)

  datatype Change = Mode(chmod: ChMod) | Owner(chown: ChOwn)

  /** A change together with the error its application produced, if any. */
  datatype AppliedChange = AppliedChange(change: Change, error: Option<LibCError>)

  /** The path the system calls act on: the snapshot's canonical path. */
  function CPath(file: File): string {
    file.absPath
  }

  /**
   * `ChMod::new`: a mode change exists exactly when a mode transformation
   * is requested and it alters the file's mode; it carries the new mode.
   */
  function NewChMod(file: File, options: Options): (r: Option<ChMod>)
    ensures r.Some? <==> options.modeChange.Some? && Apply(options.modeChange.value, file.mode) != file.mode
    ensures r.Some? ==> r.value.file == file && r.value.options == options
    ensures r.Some? ==> r.value.mode == Apply(options.modeChange.value, file.mode) && r.value.mode != file.mode
  {
    if options.modeChange.Some? then
      var newMode := Apply(options.modeChange.value, file.mode);
      if file.mode != newMode then Some(ChMod(file, options, newMode)) else None
    else
      None
  }

  /** The ownership change the snapshot needs, if any. */
  function OwnershipChange(file: File, options: Options): Option<ChOwn> {
    var owner := if OwnerDiffers(file, options) then options.owner else None;
    var group := if GroupDiffers(file, options) then options.group else None;
    if owner.None? && group.None? then None
    else
      Some(ChOwn(
        file, options,
        owner, if owner.Some? then owner.value.uid else file.owner.uid,
        group, if group.Some? then group.value.gid else file.group.gid))
  }

  /**
   * `ChOwn::new`: starts from the file's own ids, takes over the requested
   * owner and group where their ids differ, and yields a change only when
   * at least one of them was taken over.
   */
  method NewChOwn(file: File, options: Options) returns (r: Option<ChOwn>)
    ensures r == OwnershipChange(file, options)
  {
    var chown := ChOwn(file, options, None, file.owner.uid, None, file.group.gid);

    if options.owner.Some? {
      var newOwner := options.owner.value;
      if chown.uid != newOwner.uid {
        chown := chown.(owner := Some(newOwner), uid := newOwner.uid);
      }
    }

    if options.group.Some? {
      var newGroup := options.group.value;
      if chown.gid != newGroup.gid {
        chown := chown.(group := Some(newGroup), gid := newGroup.gid);
      }
    }

    if chown.owner.Some? || chown.group.Some? {
      r := Some(chown);
    } else {
      r := None;
    }
  }

  /**
   * What an ownership change holds: there is one exactly when the owner or
   * the group differs; an owner or group is recorded exactly when it
   * differs, and the ids are the requested ones for what changes and the
   * file's own for what does not.
   */
  lemma OwnershipChangeFields(file: File, options: Options)
    ensures OwnershipChange(file, options).None?
      <==> !OwnerDiffers(file, options) && !GroupDiffers(file, options)
    ensures OwnershipChange(file, options).Some? ==>
      var c := OwnershipChange(file, options).value;
      && c.file == file && c.options == options
      && (c.owner.Some? <==> OwnerDiffers(file, options))
      && (c.owner.Some? ==> c.owner == options.owner && c.uid == options.owner.value.uid)
      && (c.owner.None? ==> c.uid == file.owner.uid)
      && (c.group.Some? <==> GroupDiffers(file, options))
      && (c.group.Some? ==> c.group == options.group && c.gid == options.group.value.gid)
      && (c.group.None? ==> c.gid == file.group.gid)
  {
  }

  /** When both owner and group differ, a single change carries both. */
  lemma OwnershipChangeCombines(file: File, options: Options)
    requires OwnerDiffers(file, options) && GroupDiffers(file, options)
    ensures OwnershipChange(file, options)
      == Some(ChOwn(file, options,
                    options.owner, options.owner.value.uid,
                    options.group, options.group.value.gid))
  {
  }

  /**
   * After a successful `chown` to the change's ids, a new snapshot of the
   * file needs no ownership change for the same options.
   */
  lemma OwnershipChangeSettles(file: File, options: Options, newOwner: User, newGroup: Group)
    requires OwnershipChange(file, options).Some?
    requires newOwner.uid == OwnershipChange(file, options).value.uid
    requires newGroup.gid == OwnershipChange(file, options).value.gid
    ensures OwnershipChange(file.(owner := newOwner, group := newGroup), options).None?
  {
    OwnershipChangeFields(file, options);
    OwnershipChangeFields(file.(owner := newOwner, group := newGroup), options);
  }

  /**
   * After a successful `chmod` to the change's mode, a new snapshot of the
   * file needs no mode change for the same options.
   */
  lemma ModeChangeSettles(file: File, options: Options)
    requires NewChMod(file, options).Some?
    ensures NewChMod(file.(mode := NewChMod(file, options).value.mode), options).None?
  {
    ApplyIdempotent(options.modeChange.value, file.mode);
  }

  /**
   * The per-change constructors and `change_properties` agree: the owner
   * and group of the ownership change and the mode of the mode change are
   * the corresponding fields of the file's property changes.
   */
  lemma ConstructorsAgreeWithChangesFor(file: File, options: Options)
    ensures ChangesFor(file, options).owner
      == (if OwnershipChange(file, options).Some? then OwnershipChange(file, options).value.owner else None)
    ensures ChangesFor(file, options).group
      == (if OwnershipChange(file, options).Some? then OwnershipChange(file, options).value.group else None)
    ensures ChangesFor(file, options).mode
      == (if NewChMod(file, options).Some? then Some(NewChMod(file, options).value.mode) else None)
  {
  }

  /** A change that would actually alter the file it names. */
  predicate IsEffective(change: Change) {
    match change
    case Mode(m) => m.mode != m.file.mode
    case Owner(o) =>
      && (o.owner.Some? || o.group.Some?)
      && (o.owner.Some? ==> o.uid != o.file.owner.uid)
      && (o.group.Some? ==> o.gid != o.file.group.gid)
  }

  /** Every change the constructors produce would alter its file. */
  lemma ConstructedChangesAreEffective(file: File, options: Options)
    ensures NewChMod(file, options).Some? ==> IsEffective(Mode(NewChMod(file, options).value))
    ensures OwnershipChange(file, options).Some? ==> IsEffective(Owner(OwnershipChange(file, options).value))
  {
  }

  /** `ChMod::apply`: nothing happens in a dry run; otherwise `chmod` must return 0. */
  function ApplyChMod(chmod: ChMod, sys: System): (r: Result<(), LibCError>)
    ensures chmod.options.dryRun ==> r.Ok?
    ensures !chmod.options.dryRun ==> (r.Ok? <==> sys.chmod(CPath(chmod.file), chmod.mode) == 0)
  {
    if chmod.options.dryRun then Ok(())
    else if sys.chmod(CPath(chmod.file), chmod.mode) == 0 then Ok(())
    else Err(LibCError)
  }

  /** `ChOwn::apply`: nothing happens in a dry run; otherwise `chown` must return 0. */
  function ApplyChOwn(chown: ChOwn, sys: System): (r: Result<(), LibCError>)
    ensures chown.options.dryRun ==> r.Ok?
    ensures !chown.options.dryRun ==> (r.Ok? <==> sys.chown(CPath(chown.file), chown.uid, chown.gid) == 0)
  {
    if chown.options.dryRun then Ok(())
    else if sys.chown(CPath(chown.file), chown.uid, chown.gid) == 0 then Ok(())
    else Err(LibCError)
  }

  /** Whether the change belongs to a dry run. */
  predicate IsDryRun(change: Change) {
    match change
    case Mode(m) => m.options.dryRun
    case Owner(o) => o.options.dryRun
  }

  /** The status the change's system call returns. */
  function Status(change: Change, sys: System): int {
    match change
    case Mode(m) => sys.chmod(CPath(m.file), m.mode)
    case Owner(o) => sys.chown(CPath(o.file), o.uid, o.gid)
  }

  /**
   * `Change::apply`: applies the change and records it with its error; the
   * error is absent exactly in a dry run or when the system call succeeds.
   */
  function ApplyChange(change: Change, sys: System): (r: AppliedChange)
    ensures r.change == change
    ensures r.error.None? <==> IsDryRun(change) || Status(change, sys) == 0
  {
    var result := match change
      case Mode(m) => ApplyChMod(m, sys)
      case Owner(o) => ApplyChOwn(o, sys);
    AppliedChange(change, if result.Err? then Some(result.error) else None)
  }

  /** A dry run never fails and does not depend on the system at all. */
  lemma DryRunIgnoresSystem(change: Change, sys1: System, sys2: System)
    requires IsDryRun(change)
    ensures ApplyChange(change, sys1) == ApplyChange(change, sys2) == AppliedChange(change, None)
  {
  }

  /**
   * Applies every change of a file in order, keeping each change's
   * outcome; a failing change does not stop the ones after it.
   */
  function ApplyAll(changes: seq<Change>, sys: System): (applied: seq<AppliedChange>)
    ensures |applied| == |changes|
    ensures forall i :: 0 <= i < |changes| ==> applied[i] == ApplyChange(changes[i], sys)
  {
    if changes == [] then []
    else [ApplyChange(changes[0], sys)] + ApplyAll(changes[1..], sys)
  }

  /** Applying two lists of changes one after the other is applying their concatenation. */
  lemma ApplyAllConcat(a: seq<Change>, b: seq<Change>, sys: System)
    ensures ApplyAll(a + b, sys) == ApplyAll(a, sys) + ApplyAll(b, sys)
  {
    assert |ApplyAll(a + b, sys)| == |ApplyAll(a, sys) + ApplyAll(b, sys)|;
    forall i | 0 <= i < |a + b|
      ensures ApplyAll(a + b, sys)[i] == (ApplyAll(a, sys) + ApplyAll(b, sys))[i]
    {
      if i >= |a| {
        assert (a + b)[i] == b[i - |a|];
      }
    }
  }
}
