/** Optional values and fallible results, used where the engine holds a
    value that may be missing or where a call can throw or abort. */
module Results {

  datatype Option<T> = None | Some(value: T)

  /** The ways an operation of the engine fails. */
  datatype Error =
    | NotFound          // `std::unordered_map::at` on a missing key throws
    | NoRoot            // `assert(root_)` on an octree built from a NaN region
    | NotANumber        // `std::stof` finds no number and throws
    | ReadPastEnd       // a `std::vector` is indexed at or beyond its size
    | NoAnimation       // `assert(curAnim_ != nullptr)` fails

  datatype Result<T> = Ok(value: T) | Err(error: Error)
}
