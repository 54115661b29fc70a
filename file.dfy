/**
 * A file as `ch` sees it: a snapshot of its path, owner, group and mode,
 * taken once, and the property changes that snapshot needs to meet the
 * requested options (`change_properties`).
 */
module Files {
  import opened Wrappers
  import opened Users
  import opened Modes
  import opened RunOptions
  import opened LibcError

  /**
   * The snapshot `File::find` takes: the name as given, its canonical
   * absolute path, its owner and group records, and its mode.
   */
  datatype File = File(name: string, absPath: string, owner: User, group: Group, mode: ModeT)

  /** The new owner, group and mode, each absent when it needs no change. */
  datatype Changes = Changes(owner: Option<User>, group: Option<Group>, mode: Option<ModeT>)

  const NoChanges := Changes(None, None, None)

  /** An owner is requested and its uid is not the file's. */
  predicate OwnerDiffers(file: File, options: Options) {
    options.owner.Some? && options.owner.value.uid != file.owner.uid
  }

  /** A group is requested and its gid is not the file's. */
  predicate GroupDiffers(file: File, options: Options) {
    options.group.Some? && options.group.value.gid != file.group.gid
  }

  /** A mode transformation is requested and it alters the file's mode. */
  predicate ModeDiffers(file: File, options: Options) {
    options.modeChange.Some? && Apply(options.modeChange.value, file.mode) != file.mode
  }

  /** Every requested property already holds for the snapshot. */
  predicate AlreadyMatches(file: File, options: Options) {
    && (options.owner.Some? ==> options.owner.value.uid == file.owner.uid)
    && (options.group.Some? ==> options.group.value.gid == file.group.gid)
    && (options.modeChange.Some? ==> Apply(options.modeChange.value, file.mode) == file.mode)
  }

  /** The changes the snapshot needs, field by field. */
  function ChangesFor(file: File, options: Options): Changes {
    Changes(
      if OwnerDiffers(file, options) then options.owner else None,
      if GroupDiffers(file, options) then options.group else None,
      if ModeDiffers(file, options) then Some(Apply(options.modeChange.value, file.mode)) else None)
  }

  /**
   * `change_properties`: starts from no changes and records each requested
   * property whose value differs from the snapshot's. It never fails.
   */
  method ChangeProperties(file: File, options: Options) returns (r: Result<Changes, LibCError>)
    ensures r == Ok(ChangesFor(file, options))
  {
    var changes := Changes(None, None, None);

    if options.owner.Some? {
      var newOwner := options.owner.value;
      if file.owner.uid != newOwner.uid {
        changes := changes.(owner := Some(newOwner));
      }
    }

    if options.group.Some? {
      var newGroup := options.group.value;
      if file.group.gid != newGroup.gid {
        changes := changes.(group := Some(newGroup));
      }
    }

    if options.modeChange.Some? {
      var newMode := Apply(options.modeChange.value, file.mode);
      if file.mode != newMode {
        changes := changes.(mode := Some(newMode));
      }
    }

    return Ok(changes);
  }

  /**
   * Each field of the changes: absent when not requested, and otherwise
   * present exactly when the requested value differs, carrying that value.
   */
  lemma ChangesForFields(file: File, options: Options)
    ensures var c := ChangesFor(file, options);
      && (c.owner.Some? <==> options.owner.Some? && options.owner.value.uid != file.owner.uid)
      && (c.owner.Some? ==> c.owner == options.owner)
      && (c.group.Some? <==> options.group.Some? && options.group.value.gid != file.group.gid)
      && (c.group.Some? ==> c.group == options.group)
      && (c.mode.Some? <==> options.modeChange.Some? && Apply(options.modeChange.value, file.mode) != file.mode)
      && (c.mode.Some? ==> c.mode.value == Apply(options.modeChange.value, file.mode) && c.mode.value != file.mode)
  {
  }

  /** There is nothing to change exactly when the snapshot already matches. */
  lemma NoChangesIffMatches(file: File, options: Options)
    ensures ChangesFor(file, options) == NoChanges <==> AlreadyMatches(file, options)
  {
  }

  /**
   * The three properties are decided independently: each field of the
   * result depends only on that property's request and current value.
   */
  lemma ChangesForIndependent(f1: File, o1: Options, f2: File, o2: Options)
    ensures f1.owner.uid == f2.owner.uid && o1.owner == o2.owner
      ==> ChangesFor(f1, o1).owner == ChangesFor(f2, o2).owner
    ensures f1.group.gid == f2.group.gid && o1.group == o2.group
      ==> ChangesFor(f1, o1).group == ChangesFor(f2, o2).group
    ensures f1.mode == f2.mode && o1.modeChange == o2.modeChange
      ==> ChangesFor(f1, o1).mode == ChangesFor(f2, o2).mode
  {
  }

  /** The snapshot as it would read once the changes were made. */
  function Updated(file: File, changes: Changes): File {
    file.(
      owner := if changes.owner.Some? then changes.owner.value else file.owner,
      group := if changes.group.Some? then changes.group.value else file.group,
      mode := if changes.mode.Some? then changes.mode.value else file.mode)
  }

  /**
   * Making the changes settles the file: a snapshot taken afterwards
   * needs no further change for the same options.
   */
  lemma ChangesSettle(file: File, options: Options)
    ensures AlreadyMatches(Updated(file, ChangesFor(file, options)), options)
    ensures ChangesFor(Updated(file, ChangesFor(file, options)), options) == NoChanges
  {
    if options.modeChange.Some? {
      ApplyIdempotent(options.modeChange.value, file.mode);
    }
    NoChangesIffMatches(Updated(file, ChangesFor(file, options)), options);
  }
}
