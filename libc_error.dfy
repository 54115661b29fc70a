/**
 * The error a failed `chmod` or `chown` call produces. The source's
 * `LibCError` carries nothing (it ignores errno and always displays
 * "ERROR"), so it is a single value here.
 */
module LibcError {

  datatype LibCError = LibCError
}
