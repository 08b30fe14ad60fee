/**
 * The filesystem as the indexer observes it. Every path the walk stats is
 * either a regular file (with the bytes a read would return), a directory
 * (with the entries `readdir` lists, already joined to the directory's path),
 * or a path whose `stat` fails.
 */
module FileTree {

  newtype byte = x: int | 0 <= x < 256

  datatype Node =
    | File(path: string, content: seq<byte>)
    | Dir(path: string, children: seq<Node>)
    | Unstattable(path: string)

  /** What a load session can fail with. */
  datatype Error =
    | StatFailed(path: string)   // `fs.stat` reported an error for this path
    | HandlerFailed(cause: string) // a handler reported this error; passed on unchanged
    | InvalidPath                // the path argument was neither a string nor an array

  /**
   * The non-directory entries under `n`, in walk order: a directory
   * contributes the entries of its children, left to right.
   */
  function Leaves(n: Node): (ls: seq<Node>)
    ensures forall l :: l in ls ==> !l.Dir?
    decreases n
  {
    match n
    case Dir(_, cs) => LeavesOf(cs)
    case _ => [n]
  }

  function LeavesOf(cs: seq<Node>): (ls: seq<Node>)
    ensures forall l :: l in ls ==> !l.Dir?
    decreases cs
  {
    if cs == [] then [] else Leaves(cs[0]) + LeavesOf(cs[1..])
  }

  /** The paths of the regular files under `n`. */
  ghost function FilePaths(n: Node): (r: set<string>) {
    set l | l in Leaves(n) && l.File? :: l.path
  }
}
