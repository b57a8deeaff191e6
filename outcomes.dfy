/** Error reporting for the voxelizer: each place where the C++ code throws
    becomes a `Fail` with the kind of error it reports. */
module Outcomes {

  datatype Option<+T> = None | Some(value: T)

  datatype Error =
    | SlotInUse           // a write target is already registered at the slot
    | UnknownIndexFormat  // the index stride is neither 2 nor 4 bytes
    | CannotVoxelize      // the resource array handed to voxelize is null

  datatype Outcome = Pass | Fail(error: Error)

  datatype Result<+T> = Ok(value: T) | Err(error: Error)
}
