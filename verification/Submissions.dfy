/** mergegate/submission.py: a provider's diff as explicit file changes. */
module Submissions {
  import opened Wrappers
  import opened Platform

  datatype ChangeKind = Add | Modify | Delete

  datatype ChangeRecord = FileChange(path: string, kind: ChangeKind, content: Option<Bytes>, executable: bool)

  /** The constructor refuses a deletion with content and a write without. */
  type Change = c: ChangeRecord | c.kind.Delete? <==> c.content.None?
    witness FileChange("x", Delete, None, false)

  datatype Submission = Submission(sha: string, changes: seq<Change>) {
    /** Raw, not normalized: the guard has to see what the provider wrote. */
    function TouchedPaths(): seq<string> {
      seq(|changes|, i requires 0 <= i < |changes| => changes[i].path)
    }
  }
}
