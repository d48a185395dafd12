/** The `STATES` table: the four status tags a runner can be in. */
module States {

  datatype Status = Initial | Working | Done | Failed

  /** The string a status is published as. */
  function Tag(s: Status): (tag: string)
  {
    match s
    case Initial => "INITIAL"
    case Working => "WORKING"
    case Done => "DONE"
    case Failed => "FAILED"
  }

  /** Every status is published as one of exactly four strings, and no two statuses share one. */
  lemma ExactlyFourTags()
    ensures forall s: Status :: Tag(s) in {"INITIAL", "WORKING", "DONE", "FAILED"}
    ensures forall s: Status, u: Status :: Tag(s) == Tag(u) ==> s == u
    ensures |{"INITIAL", "WORKING", "DONE", "FAILED"}| == 4
  {
  }
}
