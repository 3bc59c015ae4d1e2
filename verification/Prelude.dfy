/** What several of the modules share. */
module Prelude {

  datatype Option<T> = None | Some(value: T)

  /** enum procstate of kernel/proc.h. */
  datatype St = UNUSED | USED | SLEEPING | RUNNABLE | RUNNING | ZOMBIE

  ghost predicate Nodup(s: seq<nat>)
  {
    forall i, j :: 0 <= i < j < |s| ==> s[i] != s[j]
  }
}
