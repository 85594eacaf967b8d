/**
 * The rule editor of the auto-download dialog: the rule record, the
 * reducers that edit it, the destination-folder check that guards submit,
 * and the reads of the chat's backfill bits.
 */
module Dialog {
  import opened Wrappers
  import opened Sequences

  datatype FileType = Photo | Video | Audio | File

  datatype TransferPolicy = GroupByChat | GroupByType

  datatype DuplicationPolicy = Overwrite | Skip | Rename | Hash

  datatype TransferRule = TransferRule(
    destination: string,
    transferPolicy: TransferPolicy,
    duplicationPolicy: DuplicationPolicy,
    transferHistory: bool)

  datatype AutoDownloadRule = AutoDownloadRule(
    query: string,
    fileTypes: seq<FileType>,
    downloadHistory: bool,
    downloadCommentFiles: bool,
    transferRule: Option<TransferRule>)

  /** `DEFAULT_RULE`: no keyword, no type filter, history on, comments off, no transfer. */
  const DefaultRule: AutoDownloadRule := AutoDownloadRule("", [], true, false, None)

  /** The transfer rule that switching auto transfer on installs. */
  const InitialTransferRule: TransferRule := TransferRule("", GroupByChat, Overwrite, false)

  /** A `Partial<TransferRule>`: only the supplied fields are present. */
  datatype TransferRuleChanges = TransferRuleChanges(
    destination: Option<string>,
    transferPolicy: Option<TransferPolicy>,
    duplicationPolicy: Option<DuplicationPolicy>,
    transferHistory: Option<bool>)

  /** The chat's stored auto settings as the dialog receives them. */
  datatype ChatAuto = ChatAuto(
    downloadEnabled: bool,
    preloadEnabled: bool,
    state: int,
    rule: Option<AutoDownloadRule>)

  /** The dialog's editable state. */
  datatype DialogState = DialogState(
    downloadEnabled: bool,
    preloadEnabled: bool,
    rule: AutoDownloadRule)

  // ---------------------------------------------------------------------
  // Destination folder: /^[\/\\]?(?:[^<>:"|?*\/\\]+[\/\\]?)*$/
  // ---------------------------------------------------------------------

  predicate IsSeparator(c: char)
  {
    c == '/' || c == '\\'
  }

  predicate IsForbidden(c: char)
  {
    c == '<' || c == '>' || c == ':' || c == '"' || c == '|' || c == '?' || c == '*'
  }

  /** A character of the negated class `[^<>:"|?*\/\\]`. */
  predicate IsSegmentChar(c: char)
  {
    !IsForbidden(c) && !IsSeparator(c)
  }

  /**
   * One iteration of the group `(?:[^…]+[\/\\]?)` matches s[..j]: the
   * segment is s[..i], and j is i or i + 1 with a separator at i.
   */
  ghost predicate GroupAt(s: string, i: int, j: int)
  {
    0 < i <= j <= |s| && j <= i + 1 &&
    (forall k :: 0 <= k < i ==> IsSegmentChar(s[k])) &&
    (j == i + 1 ==> IsSeparator(s[i]))
  }

  /** The starred group matches the whole of s. */
  ghost predicate GroupStar(s: string)
    decreases |s|
  {
    s == [] || exists i, j :: GroupAt(s, i, j) && GroupStar(s[j..])
  }

  /** The anchored regular expression matches s. */
  ghost predicate MatchesFolderRegex(s: string)
    ensures s == [] ==> MatchesFolderRegex(s)
    ensures |s| == 1 && IsSeparator(s[0]) ==> MatchesFolderRegex(s)
    ensures |s| > 0 && IsForbidden(s[0]) ==> !MatchesFolderRegex(s)
  {
    GroupStar(s) || (|s| > 0 && IsSeparator(s[0]) && GroupStar(s[1..]))
  }

  predicate NoForbiddenChar(s: string)
  {
    forall k :: 0 <= k < |s| ==> !IsForbidden(s[k])
  }

  predicate NoAdjacentSeparators(s: string)
  {
    forall k :: 0 <= k < |s| - 1 ==> !(IsSeparator(s[k]) && IsSeparator(s[k + 1]))
  }

  /** The length of the longest prefix of segment characters. */
  function SegmentLength(s: string): (n: nat)
    ensures n <= |s|
    ensures forall k :: 0 <= k < n ==> IsSegmentChar(s[k])
    ensures n < |s| ==> !IsSegmentChar(s[n])
  {
    if s == [] || !IsSegmentChar(s[0]) then 0 else 1 + SegmentLength(s[1..])
  }

  /** What the starred group matches: no forbidden character, no two separators in a row, no leading separator. */
  lemma {:induction false} GroupStarSound(s: string)
    requires GroupStar(s)
    ensures NoForbiddenChar(s) && NoAdjacentSeparators(s)
    ensures |s| > 0 ==> !IsSeparator(s[0])
    decreases |s|
  {
    if s != [] {
      var i, j :| GroupAt(s, i, j) && GroupStar(s[j..]);
      var rest := s[j..];
      GroupStarSound(rest);
      forall k | 0 <= k < |s| ensures !IsForbidden(s[k]) {
        if k >= j { assert s[k] == rest[k - j]; }
      }
      forall k | 0 <= k < |s| - 1 ensures !(IsSeparator(s[k]) && IsSeparator(s[k + 1])) {
        if k >= j { assert s[k] == rest[k - j] && s[k + 1] == rest[k + 1 - j]; }
        else if k + 1 == j && j < |s| { assert s[k + 1] == rest[0]; }
      }
    }
  }

  lemma {:induction false} GroupStarComplete(s: string)
    requires NoForbiddenChar(s) && NoAdjacentSeparators(s)
    requires |s| > 0 ==> !IsSeparator(s[0])
    ensures GroupStar(s)
    decreases |s|
  {
    if s != [] {
      var i := SegmentLength(s);
      var j := if i < |s| then i + 1 else i;
      var rest := s[j..];
      assert GroupAt(s, i, j);
      forall k | 0 <= k < |rest| ensures !IsForbidden(rest[k]) {
        assert rest[k] == s[j + k];
      }
      forall k | 0 <= k < |rest| - 1 ensures !(IsSeparator(rest[k]) && IsSeparator(rest[k + 1])) {
        assert rest[k] == s[j + k] && rest[k + 1] == s[j + k + 1];
      }
      if |rest| > 0 {
        assert rest[0] == s[i + 1] && IsSeparator(s[i]);
      }
      GroupStarComplete(rest);
    }
  }

  /**
   * The folder regular expression accepts exactly the strings with none of
   * `<>:"|?*` and no two adjacent separators.
   */
  lemma FolderRegexCharacterization(s: string)
    ensures MatchesFolderRegex(s) <==> NoForbiddenChar(s) && NoAdjacentSeparators(s)
  {
    if MatchesFolderRegex(s) {
      if GroupStar(s) {
        GroupStarSound(s);
      } else {
        var t := s[1..];
        GroupStarSound(t);
        forall k | 0 <= k < |s| ensures !IsForbidden(s[k]) {
          if k > 0 { assert s[k] == t[k - 1]; }
        }
        forall k | 0 <= k < |s| - 1 ensures !(IsSeparator(s[k]) && IsSeparator(s[k + 1])) {
          if k > 0 { assert s[k] == t[k - 1] && s[k + 1] == t[k]; } else { assert s[1] == t[0]; }
        }
      }
    }
    if NoForbiddenChar(s) && NoAdjacentSeparators(s) {
      if |s| > 0 && IsSeparator(s[0]) {
        var t := s[1..];
        forall k | 0 <= k < |t| ensures !IsForbidden(t[k]) {
          assert t[k] == s[k + 1];
        }
        forall k | 0 <= k < |t| - 1 ensures !(IsSeparator(t[k]) && IsSeparator(t[k + 1])) {
          assert t[k] == s[k + 1] && t[k + 1] == s[k + 2];
        }
        if |t| > 0 { assert t[0] == s[1]; }
        GroupStarComplete(t);
      } else {
        GroupStarComplete(s);
      }
    }
  }

  /** `folderPathRegex.test(destination)`. */
  function IsFolderPath(s: string): (b: bool)
    ensures b <==> MatchesFolderRegex(s)
  {
    FolderRegexCharacterization(s);
    NoForbiddenChar(s) && NoAdjacentSeparators(s)
  }

  /** Two adjacent separators anywhere make the destination invalid. */
  lemma DoubleSeparatorRejected(s: string, k: nat)
    requires k + 1 < |s| && IsSeparator(s[k]) && IsSeparator(s[k + 1])
    ensures !MatchesFolderRegex(s)
  {
    FolderRegexCharacterization(s);
  }

  /** Any of the seven forbidden characters makes the destination invalid (so `C:\…` is refused). */
  lemma ForbiddenCharRejected(s: string, k: nat)
    requires k < |s| && IsForbidden(s[k])
    ensures !MatchesFolderRegex(s)
  {
    FolderRegexCharacterization(s);
  }

  /** The submit button's guard: a transfer rule needs a non-empty destination the regex accepts. */
  function CanSubmit(rule: AutoDownloadRule): (ok: bool)
    ensures rule.transferRule.None? ==> ok
    ensures rule.transferRule.Some? ==>
      (ok <==> |rule.transferRule.value.destination| > 0 && MatchesFolderRegex(rule.transferRule.value.destination))
  {
    match rule.transferRule
    case None => true
    case Some(tr) => !(|tr.destination| == 0 || !IsFolderPath(tr.destination))
  }

  // ---------------------------------------------------------------------
  // Reducers
  // ---------------------------------------------------------------------

  /** `handleFileTypeSelect`: append a type that is not yet selected. */
  function SelectFileType(rule: AutoDownloadRule, t: FileType): (r: AutoDownloadRule)
    ensures t in r.fileTypes
    ensures r.(fileTypes := rule.fileTypes) == rule
    ensures t in rule.fileTypes ==> r == rule
    ensures t !in rule.fileTypes ==> r.fileTypes == rule.fileTypes + [t]
  {
    if t in rule.fileTypes then rule
    else rule.(fileTypes := rule.fileTypes + [t])
  }

  /** The types other than t, in order (`filter((type) => type !== t)`). */
  function WithoutType(types: seq<FileType>, t: FileType): (r: seq<FileType>)
    ensures forall x :: x in r <==> x in types && x != t
  {
    if types == [] then []
    else if types[0] == t then WithoutType(types[1..], t)
    else [types[0]] + WithoutType(types[1..], t)
  }

  /** `removeFileType`: drop every occurrence of t, change nothing else. */
  function RemoveFileType(rule: AutoDownloadRule, t: FileType): (r: AutoDownloadRule)
    ensures t !in r.fileTypes
    ensures forall x :: x != t ==> (x in r.fileTypes <==> x in rule.fileTypes)
    ensures r.(fileTypes := rule.fileTypes) == rule
  {
    rule.(fileTypes := WithoutType(rule.fileTypes, t))
  }

  /** Selecting a type keeps a duplicate-free list duplicate-free. */
  lemma SelectKeepsNoDuplicates(rule: AutoDownloadRule, t: FileType)
    requires NoDuplicates(rule.fileTypes)
    ensures NoDuplicates(SelectFileType(rule, t).fileTypes)
  {
  }

  lemma {:induction false} WithoutTypeAbsent(types: seq<FileType>, t: FileType)
    requires t !in types
    ensures WithoutType(types, t) == types
  {
    if types != [] {
      WithoutTypeAbsent(types[1..], t);
    }
  }

  lemma {:induction false} WithoutTypeAppend(a: seq<FileType>, b: seq<FileType>, t: FileType)
    ensures WithoutType(a + b, t) == WithoutType(a, t) + WithoutType(b, t)
  {
    if a == [] {
      assert a + b == b;
    } else {
      assert (a + b)[1..] == a[1..] + b;
      WithoutTypeAppend(a[1..], b, t);
    }
  }

  /** Removing a freshly selected type restores the rule. */
  lemma RemoveUndoesSelect(rule: AutoDownloadRule, t: FileType)
    requires t !in rule.fileTypes
    ensures RemoveFileType(SelectFileType(rule, t), t) == rule
  {
    WithoutTypeAppend(rule.fileTypes, [t], t);
    WithoutTypeAbsent(rule.fileTypes, t);
  }

  /** Removing a type keeps a duplicate-free list duplicate-free. */
  lemma {:induction false} RemoveKeepsNoDuplicates(types: seq<FileType>, t: FileType)
    requires NoDuplicates(types)
    ensures NoDuplicates(WithoutType(types, t))
  {
    if types != [] {
      assert NoDuplicates(types[1..]) by {
        forall i, j | 0 <= i < j < |types[1..]| ensures types[1..][i] != types[1..][j] {
          assert types[1..][i] == types[i + 1] && types[1..][j] == types[j + 1];
        }
      }
      RemoveKeepsNoDuplicates(types[1..], t);
      assert types[0] !in types[1..] by {
        forall k | 0 <= k < |types[1..]| ensures types[1..][k] != types[0] {
          assert types[1..][k] == types[k + 1];
        }
      }
    }
  }

  /** `{...tr, ...changes}`: a supplied field overwrites, an absent one is kept. */
  function PatchTransferRule(tr: TransferRule, changes: TransferRuleChanges): (r: TransferRule)
    ensures changes.destination.Some? ==> r.destination == changes.destination.value
    ensures changes.destination.None? ==> r.destination == tr.destination
    ensures changes.transferPolicy.Some? ==> r.transferPolicy == changes.transferPolicy.value
    ensures changes.transferPolicy.None? ==> r.transferPolicy == tr.transferPolicy
    ensures changes.duplicationPolicy.Some? ==> r.duplicationPolicy == changes.duplicationPolicy.value
    ensures changes.duplicationPolicy.None? ==> r.duplicationPolicy == tr.duplicationPolicy
    ensures changes.transferHistory.Some? ==> r.transferHistory == changes.transferHistory.value
    ensures changes.transferHistory.None? ==> r.transferHistory == tr.transferHistory
  {
    TransferRule(
      changes.destination.GetOr(tr.destination),
      changes.transferPolicy.GetOr(tr.transferPolicy),
      changes.duplicationPolicy.GetOr(tr.duplicationPolicy),
      changes.transferHistory.GetOr(tr.transferHistory))
  }

  /** `handleTransferRuleChange`: patch the transfer rule, or do nothing when there is none. */
  function ChangeTransferRule(rule: AutoDownloadRule, changes: TransferRuleChanges): (r: AutoDownloadRule)
    ensures rule.transferRule.None? ==> r == rule
    ensures r.(transferRule := rule.transferRule) == rule
    ensures rule.transferRule.Some? ==> r.transferRule.Some?
    ensures rule.transferRule.Some? ==>
      (var before, after := rule.transferRule.value, r.transferRule.value;
       after.destination == changes.destination.GetOr(before.destination) &&
       after.transferPolicy == changes.transferPolicy.GetOr(before.transferPolicy) &&
       after.duplicationPolicy == changes.duplicationPolicy.GetOr(before.duplicationPolicy) &&
       after.transferHistory == changes.transferHistory.GetOr(before.transferHistory))
  {
    match rule.transferRule
    case None => rule
    case Some(tr) => rule.(transferRule := Some(PatchTransferRule(tr, changes)))
  }

  /** Applying the same change twice is the same as applying it once. */
  lemma ChangeTransferRuleIdempotent(rule: AutoDownloadRule, changes: TransferRuleChanges)
    ensures ChangeTransferRule(ChangeTransferRule(rule, changes), changes) == ChangeTransferRule(rule, changes)
  {
  }

  /** `handleQueryChange`: replace the keyword, keep everything else. */
  function ChangeQuery(rule: AutoDownloadRule, query: string): (r: AutoDownloadRule)
    ensures r.query == query && r.(query := rule.query) == rule
  {
    rule.(query := query)
  }

  /** The download-history switch. */
  function SetDownloadHistory(rule: AutoDownloadRule, checked: bool): (r: AutoDownloadRule)
    ensures r.downloadHistory == checked && r.(downloadHistory := rule.downloadHistory) == rule
  {
    rule.(downloadHistory := checked)
  }

  /** The comment-files switch. */
  function SetDownloadCommentFiles(rule: AutoDownloadRule, checked: bool): (r: AutoDownloadRule)
    ensures r.downloadCommentFiles == checked && r.(downloadCommentFiles := rule.downloadCommentFiles) == rule
  {
    rule.(downloadCommentFiles := checked)
  }

  /** The auto-transfer switch: on installs a blank transfer rule, off removes it. */
  function ToggleAutoTransfer(rule: AutoDownloadRule, checked: bool): (r: AutoDownloadRule)
    ensures checked ==> r.transferRule == Some(InitialTransferRule)
    ensures !checked ==> r.transferRule.None?
    ensures r.(transferRule := rule.transferRule) == rule
  {
    if checked then rule.(transferRule := Some(InitialTransferRule))
    else rule.(transferRule := None)
  }

  /** A freshly enabled transfer rule blocks submit until a destination is typed; disabling transfer never blocks it. */
  lemma ToggleAutoTransferAndSubmit(rule: AutoDownloadRule)
    ensures !CanSubmit(ToggleAutoTransfer(rule, true))
    ensures CanSubmit(ToggleAutoTransfer(rule, false))
  {
  }

  /** Typing a valid destination into a fresh transfer rule unblocks submit. */
  lemma DestinationUnblocksSubmit(rule: AutoDownloadRule, destination: string)
    requires |destination| > 0 && NoForbiddenChar(destination) && NoAdjacentSeparators(destination)
    ensures CanSubmit(ChangeTransferRule(ToggleAutoTransfer(rule, true),
      TransferRuleChanges(Some(destination), None, None, None)))
  {
    FolderRegexCharacterization(destination);
  }

  /** The auto-download switch: turning it on resets the rule to the default, turning it off keeps the rule. */
  function ToggleAutoDownload(st: DialogState, checked: bool): (r: DialogState)
    ensures r.downloadEnabled == checked && r.preloadEnabled == st.preloadEnabled
    ensures checked ==> r.rule == DefaultRule
    ensures !checked ==> r.rule == st.rule
  {
    if checked then st.(rule := DefaultRule, downloadEnabled := checked)
    else st.(downloadEnabled := checked)
  }

  /** The state the dialog loads from the chat: its settings, or everything off with the default rule. */
  function LoadFromChat(auto: Option<ChatAuto>): (r: DialogState)
    ensures auto.None? ==> r == DialogState(false, false, DefaultRule)
    ensures auto.Some? ==>
      (r.downloadEnabled == auto.value.downloadEnabled &&
       r.preloadEnabled == auto.value.preloadEnabled &&
       r.rule == auto.value.rule.GetOr(DefaultRule))
  {
    match auto
    case None => DialogState(false, false, DefaultRule)
    case Some(a) => DialogState(a.downloadEnabled, a.preloadEnabled, a.rule.GetOr(DefaultRule))
  }

  /** The default rule passes the submit guard and has no duplicate types. */
  lemma DefaultRuleSubmits()
    ensures CanSubmit(DefaultRule) && NoDuplicates(DefaultRule.fileTypes)
  {
  }

  // ---------------------------------------------------------------------
  // Backfill bits: `chat.auto.state & (1 << n)`
  // ---------------------------------------------------------------------

  /** Bit n of the 32-bit two's-complement value of `state`, as JavaScript's `&` sees it. */
  function StateBit(state: int, n: nat): bool
  {
    (state / Pow2(n)) % 2 == 1
  }

  function Pow2(n: nat): (p: nat)
    ensures p >= 1
  {
    if n == 0 then 1 else 2 * Pow2(n - 1)
  }

  /** `(state & (1 << 1)) != 0`: the preload backfill is complete. */
  function PreloadBackfillComplete(state: int): (b: bool)
    ensures 0 <= state < 0x1_0000_0000 ==> (b <==> (state as bv32) & 2 != 0)
  {
    StateBit(state, 1)
  }

  /** `(state & (1 << 2)) != 0`: the download backfill is complete. */
  function DownloadBackfillComplete(state: int): (b: bool)
    ensures 0 <= state < 0x1_0000_0000 ==> (b <==> (state as bv32) & 4 != 0)
  {
    StateBit(state, 2)
  }
}
