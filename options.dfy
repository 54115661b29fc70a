/**
 * What one run of `ch` asks for, shared read-only by every file it
 * processes. Only the fields the core reads are modelled: the command-line
 * file list and the verbosity belong to argument parsing and reporting.
 */
module RunOptions {
  import opened Wrappers
  import opened Users
  import opened Modes

  /**
   * The requested owner and group (already resolved from their names), the
   * requested mode transformation, and whether changes are only reported
   * rather than made.
   */
  datatype Options = Options(
    owner: Option<User>,
    group: Option<Group>,
    modeChange: Option<ModeChange>,
    dryRun: bool)
}
