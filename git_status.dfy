/** projects/git/GitStatusActionMapper and projects/git/GitStatus: the
    actions offered for a file or commit status, as constant lookup tables
    from status to the list of actions. */
module GitActions {

  const Added := "Added"
  const Changed := "Changed"
  const Removed := "Removed"
  const Untracked := "Untracked"
  const Modified := "Modified"
  const Conflicting := "Conflicting"
  const CommitLocal := "Commit Local"
  const CommitRemote := "Commit Remote"

  const Commit := "Commit"
  const Add := "Add"
  const Unstage := "Unstage"
  const Ignore := "Ignore"
  const Reset := "Reset"
  const Restore := "Restore"
  const Resolve := "Resolve Conflicts"
  const Undo := "Undo Merge"
  const Push := "Push"
  const Tag := "Tag"
  const Revert := "Revert"
  const CherryPick := "Cherry Pick"

  /** The statuses of files before a commit. */
  const PreCommitStatuses: set<string> := {Added, Changed, Removed, Untracked, Modified, Conflicting}

  /** The statuses of commits. */
  const PostCommitStatuses: set<string> := {CommitLocal, CommitRemote}

  /** `allPreCommitActions`, and `createActionMap` of GitStatus, which
      builds the same table. */
  function PreCommitActions(): (table: map<string, seq<string>>)
    ensures table.Keys == PreCommitStatuses
  {
    map[Added := [Commit, Unstage],
        Changed := [Commit, Unstage, Reset],
        Removed := [Commit, Unstage, Restore],
        Untracked := [Add, Ignore],
        Modified := [Add, Reset],
        Conflicting := [Resolve, Undo]]
  }

  /** `allPostCommitActions`. */
  function PostCommitActions(): (table: map<string, seq<string>>)
    ensures table.Keys == PostCommitStatuses
  {
    map[CommitLocal := [Push, Tag, Revert, CherryPick],
        CommitRemote := [Tag, Revert, CherryPick]]
  }

  /** No status is both a file status and a commit status. */
  lemma StatusesDisjoint()
    ensures PreCommitStatuses !! PostCommitStatuses
  {
  }

  /** `GitStatusActionMapper.getActions`: both tables merged, the
      post-commit one put last; an unknown status has no actions. Since the
      key sets are disjoint, the merge overrides nothing: the result is the
      entry of whichever table holds the status. */
  function GetActions(status: string): (actions: seq<string>)
    ensures status in PreCommitStatuses ==> actions == PreCommitActions()[status]
    ensures status in PostCommitStatuses ==> actions == PostCommitActions()[status]
    ensures status !in PreCommitStatuses && status !in PostCommitStatuses ==> actions == []
  {
    var merged := PreCommitActions() + PostCommitActions();
    StatusesDisjoint();
    if status in merged then merged[status] else []
  }

  /** Push is offered for a local commit and for nothing else; every status
      that has actions has at least two of them, all different. */
  lemma PushOnlyForLocalCommit(status: string)
    ensures Push in GetActions(status) <==> status == CommitLocal
    ensures status in PreCommitStatuses + PostCommitStatuses ==> |GetActions(status)| >= 2
    ensures forall i, j :: 0 <= i < j < |GetActions(status)| ==> GetActions(status)[i] != GetActions(status)[j]
  {
  }

  /** `GitStatus.getAllAvailableActions`: the table of `createActionMap`. */
  function GetAllAvailableActions(): (table: map<string, seq<string>>)
    ensures table.Keys == PreCommitStatuses
    ensures forall s :: s in table ==> table[s] == GetActions(s)
  {
    PreCommitActions()
  }

  /** `GitStatus.getAvailableActions`: the file-status table only; a commit
      status or an unknown status has no actions. */
  function GetAvailableActions(fileStatus: string): (actions: seq<string>)
    ensures fileStatus in PreCommitStatuses ==> actions == GetActions(fileStatus)
    ensures fileStatus !in PreCommitStatuses ==> actions == []
  {
    var table := GetAllAvailableActions();
    if fileStatus in table then table[fileStatus] else []
  }

  /** The two classes agree on file statuses and differ exactly on commit
      statuses, which only the mapper knows. */
  lemma AvailableActionsDifferOnCommits(status: string)
    ensures GetAvailableActions(status) != GetActions(status) <==> status in PostCommitStatuses
  {
  }
}
