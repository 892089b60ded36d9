/**
 * The part of the file system that the delete and rename commands change:
 * which paths are regular files, which are directories, and which files the
 * operating system refuses to remove or move (in use, no permission).
 */
module Fs {
  import opened Wrappers

  /** The kinds of `std::io::Error` the model tells apart. */
  datatype IoError = NotFound | PermissionDenied

  /** The `Display` text of the error, as Windows reports it. */
  function IoErrorText(e: IoError): string
  {
    match e
    case NotFound => "The system cannot find the file specified. (os error 2)"
    case PermissionDenied => "Access is denied. (os error 5)"
  }

  datatype Volume = Volume(files: set<string>, dirs: set<string>, locked: set<string>)

  /** `Path::exists`. */
  predicate Exists(v: Volume, path: string)
  {
    path in v.files || path in v.dirs
  }

  /** `Path::is_file`. */
  predicate IsFile(v: Volume, path: string)
  {
    path in v.files
  }

  /** `std::fs::remove_file`: removes one regular file, or fails and changes nothing. */
  function RemoveFile(v: Volume, path: string): (r: (Result<(), IoError>, Volume))
    ensures r.0.Ok? <==> path in v.files && path !in v.locked && path !in v.dirs
    ensures r.0.Ok? ==> r.1 == v.(files := v.files - {path})
    ensures r.0.Err? ==> r.1 == v
    ensures r.0 == Err(NotFound) <==> !Exists(v, path)
  {
    if !Exists(v, path) then (Err(NotFound), v)
    else if path in v.dirs || path in v.locked then (Err(PermissionDenied), v)
    else (Ok(()), v.(files := v.files - {path}))
  }

  /** `std::fs::rename` of a file; an existing file at the target is replaced, as on Windows. */
  function Rename(v: Volume, from: string, to: string): (r: (Result<(), IoError>, Volume))
    ensures r.0.Ok? <==> from in v.files && from !in v.locked && from !in v.dirs && to !in v.dirs && to !in v.locked
    ensures r.0.Ok? ==> r.1 == v.(files := v.files - {from} + {to})
    ensures r.0.Err? ==> r.1 == v
  {
    if !Exists(v, from) then (Err(NotFound), v)
    else if from in v.dirs || from in v.locked || to in v.dirs || to in v.locked then (Err(PermissionDenied), v)
    else (Ok(()), v.(files := v.files - {from} + {to}))
  }
}
