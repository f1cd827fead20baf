/** ClientUtils of the NEAR client (src/core/blockchain/near/client-utils.ts): the status lookup
    and the reconstruction of a wallet transaction from a `tx` RPC result, which recovers the
    staked amount and the validator from the human-readable receipt logs. */
module NearClientUtils {
  import opened Common
  import opened Strings
  import opened Transactions
  import NearTransaction

  // ---------------------------------------------------------------------------------------
  // The raw `tx` RPC result

  /** One entry of `transaction.actions`: `{Transfer: {deposit}}`, `{FunctionCall: ...}` or
      anything else. */
  datatype RawAction = TransferRaw(deposit: string) | FunctionCallRaw | OtherRaw

  datatype RawTransaction = RawTransaction(
    hash: string, signerId: string, receiverId: string, publicKey: string, nonce: int,
    actions: seq<RawAction>)

  /** The RPC result: the transaction, its outcome status and, per receipt outcome, its logs
      (a missing `receipts_outcome` or `logs` is the empty sequence). */
  datatype ChainTx = ChainTx(
    transaction: RawTransaction, status: NearTransaction.OutcomeStatus, receiptLogs: seq<seq<string>>)

  // ---------------------------------------------------------------------------------------
  // The log patterns

  predicate NoSpace(w: string)
  {
    forall k :: 0 <= k < |w| ==> w[k] != ' '
  }

  /** No space in `s[i..j]`, stated on the text itself. */
  predicate SpaceFree(s: string, i: nat, j: nat)
    requires i <= j <= |s|
  {
    forall k :: i <= k < j ==> s[k] != ' '
  }

  lemma SpaceFreeSlice(s: string, i: nat, j: nat)
    requires i <= j <= |s|
    ensures NoSpace(s[i..j]) <==> SpaceFree(s, i, j)
  {
    assert forall k :: 0 <= k < j - i ==> s[i..j][k] == s[i + k];
  }

  /** Where a greedy `[^ ]*` that starts at `i` stops. */
  function RunEnd(s: string, i: nat): (j: nat)
    requires i <= |s|
    decreases |s| - i
    ensures i <= j <= |s| && SpaceFree(s, i, j) && (j == |s| || s[j] == ' ')
  {
    if i == |s| || s[i] == ' ' then i else RunEnd(s, i + 1)
  }

  /** A space-free stretch that ends at a space (or at the end) is exactly what `[^ ]*` takes. */
  lemma RunEndUnique(s: string, i: nat, j: nat)
    requires i <= j <= |s| && SpaceFree(s, i, j) && (j == |s| || s[j] == ' ')
    ensures RunEnd(s, i) == j
  {
  }

  /** The literal `lit` occurs at `i` under the `/i` flag, which on these ASCII literals is
      equality after ASCII case folding. */
  predicate CiLitAt(s: string, lit: string, i: nat)
  {
    i + |lit| <= |s| && forall k :: 0 <= k < |lit| ==> LowerChar(s[i + k]) == LowerChar(lit[k])
  }

  /** A literal that starts with a space can only be found where the text has a space. */
  lemma CiSpace(s: string, lit: string, i: nat)
    requires CiLitAt(s, lit, i) && |lit| > 0 && lit[0] == ' '
    ensures i < |s| && s[i] == ' '
  {
    assert LowerChar(s[i + 0]) == LowerChar(lit[0]);
  }

  /** A group `w` placed at `start` and followed by such a literal is what `[^ ]*` takes. */
  lemma GroupEnd(s: string, start: nat, w: string, lit: string)
    requires start + |w| <= |s| && s[start..start + |w|] == w && NoSpace(w)
    requires CiLitAt(s, lit, start + |w|) && |lit| > 0 && lit[0] == ' '
    ensures RunEnd(s, start) == start + |w|
  {
    CiSpace(s, lit, start + |w|);
    SpaceFreeSlice(s, start, start + |w|);
    RunEndUnique(s, start, start + |w|);
  }

  /** `/<lead>([^ ]*)<mid>@?([^ ]*) succeeded/i`. */
  datatype LogPattern = LogPattern(lead: string, mid: string)

  const SUCCEEDED := " succeeded"

  const LOG_PATTERNS: seq<LogPattern> := [
    LogPattern("The deposit and stake of ", " to "),
    LogPattern("The deposit of ", " to "),
    LogPattern("Staking of ", " at "),
    LogPattern("The withdrawal of ", " from ")
  ]

  /** The regular expression matches at `i` through this decomposition of the text: the lead,
      the first group `a`, the middle word, an optional '@' (`at`), the second group as far as
      the text goes (`b`), and " succeeded". */
  predicate Decomposes(s: string, i: nat, p: LogPattern, a: string, at: string, b: string)
  {
    var j1 := i + |p.lead|;
    var j2 := j1 + |a|;
    var j3 := j2 + |p.mid|;
    var j4 := j3 + |at|;
    var j5 := j4 + |b|;
    (at == "" || at == "@") && NoSpace(a) && NoSpace(b)
    && CiLitAt(s, p.lead, i) && CiLitAt(s, p.mid, j2) && CiLitAt(s, SUCCEEDED, j5)
    && Occurs(s, a, j1) && Occurs(s, at, j3) && Occurs(s, b, j4)
  }

  /** `w` is the text at `j`: `s[j..j + |w|] == w`, stated on the characters. */
  predicate Occurs(s: string, w: string, j: nat)
  {
    j + |w| <= |s| && forall k :: 0 <= k < |w| ==> s[j + k] == w[k]
  }

  lemma OccursSlice(s: string, j: nat, e: nat)
    requires j <= e <= |s|
    ensures Occurs(s, s[j..e], j)
  {
  }

  lemma OccursIsSlice(s: string, w: string, j: nat)
    requires Occurs(s, w, j)
    ensures s[j..j + |w|] == w
  {
  }

  /** A space-free word found at `j` makes that stretch of the text space-free. */
  lemma OccursSpaceFree(s: string, w: string, j: nat)
    requires Occurs(s, w, j) && NoSpace(w)
    ensures SpaceFree(s, j, j + |w|)
  {
    forall k | j <= k < j + |w| ensures s[k] != ' ' {
      assert s[j + (k - j)] == w[k - j];
    }
  }

  function StripAt(w: string): string
  {
    if |w| > 0 && w[0] == '@' then w[1..] else w
  }

  /** Where the parts of a match end: the first group is `s[i + |lead|..a1]`, the optional
      '@' `s[a1 + |mid|..b1]` and the second group `s[b1..b2]`. */
  datatype MatchEnds = MatchEnds(a1: nat, b1: nat, b2: nat)

  /** The backtracking matcher run at position `i`, as the ends of the parts it matched. Both
      groups end where the next literal starts with a space, so the greedy `[^ ]*` never has to
      give characters back, and an '@' is taken by `@?` first. */
  function MatchEndsAt(s: string, i: nat, p: LogPattern): (r: Option<MatchEnds>)
    ensures r.Some? ==> i + |p.lead| <= r.value.a1 && r.value.a1 + |p.mid| <= r.value.b1 <= r.value.b2 <= |s|
  {
    if !CiLitAt(s, p.lead, i) then None
    else
      var a1 := RunEnd(s, i + |p.lead|);
      if !CiLitAt(s, p.mid, a1) then None
      else TailEnds(s, a1, AfterAt(s, a1 + |p.mid|))
  }

  /** Past the optional '@' that starts at `b0`. */
  function AfterAt(s: string, b0: nat): nat
  {
    if b0 < |s| && s[b0] == '@' then b0 + 1 else b0
  }

  /** The second group from `b1` and the closing " succeeded". */
  function TailEnds(s: string, a1: nat, b1: nat): (r: Option<MatchEnds>)
    requires b1 <= |s|
    ensures r.Some? ==> r.value.a1 == a1 && r.value.b1 == b1 <= r.value.b2 <= |s|
  {
    var b2 := RunEnd(s, b1);
    if !CiLitAt(s, SUCCEEDED, b2) then None else Some(MatchEnds(a1, b1, b2))
  }

  /** What the matcher checked on the way to a match: the lead, the first group and the middle
      word. */
  lemma MatchEndsLead(s: string, i: nat, p: LogPattern)
    requires MatchEndsAt(s, i, p).Some?
    ensures CiLitAt(s, p.lead, i)
    ensures MatchEndsAt(s, i, p).value.a1 == RunEnd(s, i + |p.lead|)
    ensures CiLitAt(s, p.mid, MatchEndsAt(s, i, p).value.a1)
  {
  }

  /** The optional '@' after the middle word. */
  lemma MatchEndsAtSign(s: string, i: nat, p: LogPattern)
    requires MatchEndsAt(s, i, p).Some?
    ensures var e := MatchEndsAt(s, i, p).value;
      e.b1 == e.a1 + |p.mid| || (e.a1 + |p.mid| < |s| && s[e.a1 + |p.mid|] == '@' && e.b1 == e.a1 + |p.mid| + 1)
  {
  }

  /** The second group and the closing " succeeded". */
  lemma MatchEndsTail(s: string, i: nat, p: LogPattern)
    requires MatchEndsAt(s, i, p).Some?
    ensures MatchEndsAt(s, i, p).value.b2 == RunEnd(s, MatchEndsAt(s, i, p).value.b1)
    ensures CiLitAt(s, SUCCEEDED, MatchEndsAt(s, i, p).value.b2)
  {
  }

  /** The groups `(X, Y)` of a match at `i`. */
  function MatchAt(s: string, i: nat, p: LogPattern): Option<(string, string)>
  {
    match MatchEndsAt(s, i, p)
    case None => None
    case Some(e) => Some((s[i + |p.lead|..e.a1], s[e.b1..e.b2]))
  }

  /** Every match the matcher reports is a decomposition of the text. */
  lemma MatchAtSound(s: string, i: nat, p: LogPattern, a: string, b: string)
    requires MatchAt(s, i, p) == Some((a, b))
    ensures Decomposes(s, i, p, a, "", b) || Decomposes(s, i, p, a, "@", b)
  {
    var e := MatchEndsAt(s, i, p).value;
    MatchEndsLead(s, i, p);
    MatchEndsAtSign(s, i, p);
    MatchEndsTail(s, i, p);
    assert a == s[i + |p.lead|..e.a1] && b == s[e.b1..e.b2];
    DecomposesFromEnds(s, i, p, e.a1, e.b1, e.b2);
  }

  /** The ends the matcher checked make a decomposition, with or without the '@'. */
  lemma DecomposesFromEnds(s: string, i: nat, p: LogPattern, a1: nat, b1: nat, b2: nat)
    requires i + |p.lead| <= a1 && a1 + |p.mid| <= b1 <= b2 <= |s|
    requires CiLitAt(s, p.lead, i) && a1 == RunEnd(s, i + |p.lead|) && CiLitAt(s, p.mid, a1)
    requires b1 == a1 + |p.mid| || (a1 + |p.mid| < |s| && s[a1 + |p.mid|] == '@' && b1 == a1 + |p.mid| + 1)
    requires b2 == RunEnd(s, b1) && CiLitAt(s, SUCCEEDED, b2)
    ensures Decomposes(s, i, p, s[i + |p.lead|..a1], "", s[b1..b2])
         || Decomposes(s, i, p, s[i + |p.lead|..a1], "@", s[b1..b2])
  {
    SpaceFreeSlice(s, i + |p.lead|, a1);
    SpaceFreeSlice(s, b1, b2);
    var b0 := a1 + |p.mid|;
    var at := s[b0..b1];
    if b1 == b0 {
      assert at == "";
    } else {
      assert at == [s[b0]] == "@";
    }
    DecomposesAt(s, i, p, a1, at, b1, b2);
  }

  /** A decomposition given by where its parts end. */
  lemma DecomposesAt(s: string, i: nat, p: LogPattern, a1: nat, at: string, b1: nat, b2: nat)
    requires i + |p.lead| <= a1 && a1 + |p.mid| + |at| == b1 <= b2 <= |s|
    requires (at == "" || at == "@") && s[a1 + |p.mid|..b1] == at
    requires NoSpace(s[i + |p.lead|..a1]) && NoSpace(s[b1..b2])
    requires CiLitAt(s, p.lead, i) && CiLitAt(s, p.mid, a1) && CiLitAt(s, SUCCEEDED, b2)
    ensures Decomposes(s, i, p, s[i + |p.lead|..a1], at, s[b1..b2])
  {
    var a, b := s[i + |p.lead|..a1], s[b1..b2];
    var j1 := i + |p.lead|;
    var j2 := j1 + |a|;
    var j3 := j2 + |p.mid|;
    var j4 := j3 + |at|;
    var j5 := j4 + |b|;
    assert j2 == a1 && j4 == b1 && j5 == b2;
    OccursSlice(s, j1, a1);
    OccursSlice(s, j3, b1);
    OccursSlice(s, b1, b2);
    assert CiLitAt(s, p.mid, j2) && CiLitAt(s, SUCCEEDED, j5);
  }

  /** The matcher's ends once the checks it makes are known to pass. */
  lemma MatchEndsFound(s: string, i: nat, p: LogPattern, a1: nat, b1: nat, b2: nat)
    requires CiLitAt(s, p.lead, i) && i + |p.lead| <= |s| && RunEnd(s, i + |p.lead|) == a1
    requires CiLitAt(s, p.mid, a1) && b1 == AfterAt(s, a1 + |p.mid|) && b1 <= |s|
    requires RunEnd(s, b1) == b2 && CiLitAt(s, SUCCEEDED, b2)
    ensures MatchEndsAt(s, i, p) == Some(MatchEnds(a1, b1, b2))
  {
    assert TailEnds(s, a1, b1) == Some(MatchEnds(a1, b1, b2));
  }

  /** Conversely, whenever the text decomposes at `i`, the matcher finds that match, with the
      '@' taken off the validator when the optional '@' could take it (the `?` is greedy). */
  lemma MatchAtComplete(s: string, i: nat, p: LogPattern, a: string, at: string, b: string)
    requires |p.mid| > 0 && p.mid[0] == ' '
    requires Decomposes(s, i, p, a, at, b)
    ensures MatchAt(s, i, p) == Some((a, StripAt(at + b)))
  {
    DecomposedEnds(s, i, p, a, at, b);
    DecomposedFirstGroup(s, i, p, a, at, b);
    DecomposedSecondGroup(s, i, p, a, at, b);
  }

  /** Where the matcher's parts end on a decomposed text. */
  lemma DecomposedEnds(s: string, i: nat, p: LogPattern, a: string, at: string, b: string)
    requires |p.mid| > 0 && p.mid[0] == ' '
    requires Decomposes(s, i, p, a, at, b)
    ensures var j3 := i + |p.lead| + |a| + |p.mid|;
      MatchEndsAt(s, i, p) == Some(MatchEnds(i + |p.lead| + |a|, AfterAt(s, j3), j3 + |at| + |b|))
  {
    var j1 := i + |p.lead|;
    var j2 := j1 + |a|;
    var j3 := j2 + |p.mid|;
    var j4 := j3 + |at|;
    var j5 := j4 + |b|;
    OccursSpaceFree(s, a, j1);
    OccursSpaceFree(s, b, j4);
    if at == "@" {
      assert s[j3 + 0] == at[0];
    }
    EndsFromParts(s, i, p, j2, j3, j4, j5);
  }

  /** The text between those ends: the first group, ... */
  lemma DecomposedFirstGroup(s: string, i: nat, p: LogPattern, a: string, at: string, b: string)
    requires Decomposes(s, i, p, a, at, b)
    ensures s[i + |p.lead|..i + |p.lead| + |a|] == a
  {
    OccursIsSlice(s, a, i + |p.lead|);
  }

  /** ... and the second one, less a leading '@' the optional '@' did not take apart. */
  lemma DecomposedSecondGroup(s: string, i: nat, p: LogPattern, a: string, at: string, b: string)
    requires Decomposes(s, i, p, a, at, b)
    ensures var j3 := i + |p.lead| + |a| + |p.mid|;
      AfterAt(s, j3) <= j3 + |at| + |b| && s[AfterAt(s, j3)..j3 + |at| + |b|] == StripAt(at + b)
  {
    var j3 := i + |p.lead| + |a| + |p.mid|;
    CiSpace(s, SUCCEEDED, j3 + |at| + |b|);
    SecondGroupOccurs(s, j3, at, b);
  }

  lemma SecondGroupOccurs(s: string, j3: nat, at: string, b: string)
    requires (at == "" || at == "@") && j3 + |at| + |b| < |s| && s[j3 + |at| + |b|] == ' '
    requires Occurs(s, at, j3) && Occurs(s, b, j3 + |at|)
    ensures AfterAt(s, j3) <= j3 + |at| + |b|
    ensures s[AfterAt(s, j3)..j3 + |at| + |b|] == StripAt(at + b)
  {
    OccursIsSlice(s, at, j3);
    OccursIsSlice(s, b, j3 + |at|);
    SecondGroupText(s, j3, at, b);
  }

  /** The matcher's ends for a decomposition given by its positions: the first group ends at
      `j2`, the middle word at `j3`, the optional '@' at `j4` and the second group at `j5`. */
  lemma EndsFromParts(s: string, i: nat, p: LogPattern, j2: nat, j3: nat, j4: nat, j5: nat)
    requires |p.mid| > 0 && p.mid[0] == ' '
    requires i + |p.lead| <= j2 && j3 == j2 + |p.mid| && j3 <= j4 <= j5 <= |s|
    requires j4 == j3 || (j4 == j3 + 1 && s[j3] == '@')
    requires SpaceFree(s, i + |p.lead|, j2) && SpaceFree(s, j4, j5)
    requires CiLitAt(s, p.lead, i) && CiLitAt(s, p.mid, j2) && CiLitAt(s, SUCCEEDED, j5)
    ensures MatchEndsAt(s, i, p) == Some(MatchEnds(j2, AfterAt(s, j3), j5))
  {
    CiSpace(s, p.mid, j2);
    RunEndUnique(s, i + |p.lead|, j2);
    CiSpace(s, SUCCEEDED, j5);
    var b1 := AfterAt(s, j3);
    if j4 == j3 && b1 == j3 + 1 {
      assert j3 < j5;
      assert SpaceFree(s, b1, j5);
    }
    RunEndUnique(s, b1, j5);
    MatchEndsFound(s, i, p, j2, b1, j5);
  }

  /** The second group the matcher reports is the text after the optional '@': the group of
      the decomposition, less a leading '@' when the '@' was not matched apart. */
  lemma SecondGroupText(s: string, j3: nat, at: string, b: string)
    requires (at == "" || at == "@") && j3 + |at| + |b| < |s| && s[j3 + |at| + |b|] == ' '
    requires s[j3..j3 + |at|] == at && s[j3 + |at|..j3 + |at| + |b|] == b
    ensures AfterAt(s, j3) <= j3 + |at| + |b|
    ensures s[AfterAt(s, j3)..j3 + |at| + |b|] == StripAt(at + b)
  {
    var j5 := j3 + |at| + |b|;
    if at == "@" {
      assert s[j3] == '@' by { assert s[j3..j3 + 1][0] == s[j3]; }
      assert StripAt(at + b) == b by { assert (at + b)[1..] == b; }
    } else {
      assert |at| == 0 && j5 == j3 + |b| && at + b == b;
      assert s[j3..j5] == b;
      if s[j3] == '@' {
        assert |b| > 0 && b[0] == '@' by { assert s[j3..j5][0] == s[j3]; }
        assert s[j3 + 1..j5] == b[1..];
      } else if |b| > 0 {
        assert b[0] == s[j3] by { assert s[j3..j5][0] == s[j3]; }
      }
    }
  }

  /** The leftmost position at or after `from` where the pattern matches, or -1. */
  function FirstMatchFrom(s: string, p: LogPattern, from: nat): (r: int)
    decreases |s| + 1 - from
    ensures r == -1 || from <= r <= |s|
  {
    if from > |s| then -1
    else if MatchAt(s, from, p).Some? then from
    else FirstMatchFrom(s, p, from + 1)
  }

  /** The position found matches, and no position before it (from `from` on) does. */
  lemma {:induction false} FirstMatchFromLeftmost(s: string, p: LogPattern, from: nat)
    decreases |s| + 1 - from
    ensures var r := FirstMatchFrom(s, p, from);
      && (r != -1 ==> MatchAt(s, r, p).Some?)
      && forall k: nat :: from <= k && (r == -1 || k < r) ==> MatchAt(s, k, p).None?
  {
    if from > |s| {
      forall k: nat | from <= k ensures MatchAt(s, k, p).None? {
        NoMatchPastEnd(s, p, k);
      }
    } else if MatchAt(s, from, p).None? {
      FirstMatchFromLeftmost(s, p, from + 1);
    }
  }

  /** Nothing matches past the end of the text. */
  lemma NoMatchPastEnd(s: string, p: LogPattern, k: nat)
    requires k > |s|
    ensures MatchAt(s, k, p).None?
  {
    assert !CiLitAt(s, p.lead, k);
  }

  /** `log.match(regex)` without the `g` flag: the groups of the leftmost match. */
  function Search(s: string, p: LogPattern): Option<(string, string)>
  {
    var i := FirstMatchFrom(s, p, 0);
    if i < 0 then None else MatchAt(s, i, p)
  }

  /** The search reports nothing exactly when the pattern matches nowhere, and otherwise the
      match at the leftmost position where it matches. */
  lemma SearchIsLeftmost(s: string, p: LogPattern)
    ensures Search(s, p).None? <==> forall k: nat :: MatchAt(s, k, p).None?
    ensures Search(s, p).Some? ==> exists k: nat ::
      (MatchAt(s, k, p) == Search(s, p) && forall k': nat :: k' < k ==> MatchAt(s, k', p).None?)
  {
    var i := FirstMatchFrom(s, p, 0);
    FirstMatchFromLeftmost(s, p, 0);
    if i >= 0 {
      assert MatchAt(s, i, p) == Search(s, p);
    }
  }

  const STAKING := " staking "

  predicate IsDigit(c: char) { '0' <= c <= '9' }

  predicate AllDigits(w: string)
  {
    forall k :: 0 <= k < |w| ==> IsDigit(w[k])
  }

  /** Where a greedy `[0-9]*` that starts at `i` stops. */
  function DigitEnd(s: string, i: nat): (j: nat)
    requires i <= |s|
    decreases |s| - i
    ensures i <= j <= |s| && AllDigits(s[i..j]) && (j == |s| || !IsDigit(s[j]))
  {
    if i == |s| || !IsDigit(s[i]) then i
    else
      var j := DigitEnd(s, i + 1);
      assert forall k :: 0 < k < j - i ==> s[i..j][k] == s[i + 1..j][k - 1];
      j
  }

  /** `log.match(/^@?[^ ]* staking ([0-9]*)\./)` (case-sensitive, anchored at the start). The
      optional '@' adds nothing: '@' is itself taken by `[^ ]*`. */
  function MatchStaking(s: string): Option<string>
  {
    var j1 := RunEnd(s, 0);
    if !(j1 + |STAKING| <= |s| && s[j1..j1 + |STAKING|] == STAKING) then None
    else
      var d0 := j1 + |STAKING|;
      var d1 := DigitEnd(s, d0);
      if d1 < |s| && s[d1] == '.' then Some(s[d0..d1]) else None
  }

  /** The text starts with a space-free word, " staking ", the digits `n` and a full stop. */
  predicate StakingDecomposes(s: string, w: string, n: string)
  {
    NoSpace(w) && AllDigits(n) && |w| + |STAKING| + |n| + 1 <= |s|
    && s[..|w| + |STAKING| + |n| + 1] == w + STAKING + n + "."
  }

  lemma MatchStakingSound(s: string, n: string)
    requires MatchStaking(s) == Some(n)
    ensures exists w :: StakingDecomposes(s, w, n)
  {
    var j1 := RunEnd(s, 0);
    var d0 := j1 + |STAKING|;
    var d1 := DigitEnd(s, d0);
    var w := s[..j1];
    SpaceFreeSlice(s, 0, j1);
    assert s[..d1 + 1] == s[..j1] + s[j1..d0] + s[d0..d1] + [s[d1]];
    assert StakingDecomposes(s, w, n);
  }

  lemma MatchStakingComplete(s: string, w: string, n: string)
    requires StakingDecomposes(s, w, n)
    ensures MatchStaking(s) == Some(n)
  {
    var j1 := |w|;
    var d0 := j1 + |STAKING|;
    var d1 := d0 + |n|;
    var pre := s[..d1 + 1];
    assert pre == w + STAKING + n + ".";
    assert s[..j1] == w by { assert s[..j1] == pre[..j1]; }
    assert s[j1] == ' ' by { assert pre[j1] == STAKING[0]; }
    RunEndUnique(s, 0, j1);
    assert s[j1..d0] == STAKING by { assert s[j1..d0] == pre[j1..d0]; }
    assert s[d0..d1] == n by { assert s[d0..d1] == pre[d0..d1]; }
    assert s[d1] == '.' by { assert pre[d1] == '.'; }
    assert DigitEnd(s, d0) == d1;
  }

  // ---------------------------------------------------------------------------------------
  // Reconstruction, as a specification

  /** One pattern applied to one log: a match with both groups non-empty sets amount,
      validator and (to the staking pool) the sender. */
  function ApplyPattern(tx: Transaction, log: string, p: LogPattern, receiver: string): Transaction
  {
    match Search(log, p)
    case Some(g) => if g.0 != "" && g.1 != "" then tx.(amount := g.0, toAddress := g.1, address := receiver) else tx
    case None => tx
  }

  function ApplyPatterns(tx: Transaction, log: string, ps: seq<LogPattern>, receiver: string): Transaction
  {
    if |ps| == 0 then tx
    else ApplyPattern(ApplyPatterns(tx, log, ps[..|ps| - 1], receiver), log, ps[|ps| - 1], receiver)
  }

  /** One log line: the four patterns in order, then the staking line. */
  function ApplyLog(tx: Transaction, log: string, receiver: string): Transaction
  {
    var t := ApplyPatterns(tx, log, LOG_PATTERNS, receiver);
    match MatchStaking(log)
    case Some(n) => if n != "" then t.(amount := n) else t
    case None => t
  }

  /** Only the amount, the validator and the sender change while logs are read, and the sender
      becomes either the one it was or the receiver. */
  predicate LogEffect(before: Transaction, after: Transaction, receiver: string)
  {
    after == before.(amount := after.amount, toAddress := after.toAddress, address := after.address)
    && (after.address == before.address || after.address == receiver)
  }

  function ApplyLogs(tx: Transaction, logs: seq<string>, receiver: string): (r: Transaction)
    ensures LogEffect(tx, r, receiver)
  {
    if |logs| == 0 then tx
    else
      var t := ApplyLogs(tx, logs[..|logs| - 1], receiver);
      ApplyPatternsEffect(t, logs[|logs| - 1], LOG_PATTERNS, receiver);
      ApplyLog(t, logs[|logs| - 1], receiver)
  }

  lemma {:induction false} ApplyPatternsEffect(tx: Transaction, log: string, ps: seq<LogPattern>, receiver: string)
    ensures LogEffect(tx, ApplyPatterns(tx, log, ps, receiver), receiver)
  {
    if |ps| > 0 {
      ApplyPatternsEffect(tx, log, ps[..|ps| - 1], receiver);
    }
  }

  function ApplyReceipts(tx: Transaction, receipts: seq<seq<string>>, receiver: string): (r: Transaction)
    ensures LogEffect(tx, r, receiver)
  {
    if |receipts| == 0 then tx
    else ApplyLogs(ApplyReceipts(tx, receipts[..|receipts| - 1], receiver), receipts[|receipts| - 1], receiver)
  }

  function ApplyAction(tx: Transaction, act: RawAction, data: ChainTx): Transaction
  {
    match act
    case TransferRaw(d) => tx.(amount := d, additionalInfo := map["actions" := Actions([TransferAction])])
    case FunctionCallRaw => ApplyReceipts(tx.(txType := ContractCall), data.receiptLogs, data.transaction.receiverId)
    case OtherRaw => tx
  }

  predicate HasFunctionCall(acts: seq<RawAction>)
  {
    exists k :: 0 <= k < |acts| && acts[k].FunctionCallRaw?
  }

  /** The identity of a transaction, which reading actions and logs never changes. */
  predicate SameIdentity(t: Transaction, u: Transaction)
  {
    t.id == u.id && t.blockchain == u.blockchain && t.chainId == u.chainId && t.token == u.token
    && t.publicKey == u.publicKey && t.nonce == u.nonce && t.status == u.status
    && t.feeOptions == u.feeOptions && t.broadcastedOnBlock == u.broadcastedOnBlock && t.data == u.data
  }

  function ApplyActions(tx: Transaction, acts: seq<RawAction>, data: ChainTx): (r: Transaction)
    ensures SameIdentity(tx, r)
    ensures r.txType == ContractCall <==> tx.txType == ContractCall || HasFunctionCall(acts)
  {
    if |acts| == 0 then tx
    else
      var prefix := acts[..|acts| - 1];
      var t := ApplyActions(tx, prefix, data);
      assert HasFunctionCall(acts) <==> HasFunctionCall(prefix) || acts[|acts| - 1].FunctionCallRaw? by {
        if HasFunctionCall(prefix) {
          var k :| 0 <= k < |prefix| && prefix[k].FunctionCallRaw?;
          assert acts[k] == prefix[k];
        }
        if HasFunctionCall(acts) {
          var k :| 0 <= k < |acts| && acts[k].FunctionCallRaw?;
          if k < |prefix| { assert prefix[k] == acts[k]; }
        }
      }
      ApplyAction(t, acts[|acts| - 1], data)
  }

  const NEAR_BLOCKCHAIN := "NEAR"
  const NEAR_TOKEN := "NEAR"

  /** The transaction before any action is read. */
  function InitialTransaction(chainId: string, data: ChainTx): Transaction
  {
    Transaction(
      id := Some(data.transaction.hash),
      blockchain := NEAR_BLOCKCHAIN,
      chainId := chainId,
      txType := Transfer,
      token := NEAR_TOKEN,
      address := data.transaction.signerId,
      publicKey := data.transaction.publicKey,
      toAddress := data.transaction.receiverId,
      amount := "0",
      feeOptions := None,
      broadcastedOnBlock := None,
      nonce := data.transaction.nonce,
      status := NearTransaction.StatusByCode(data.status),
      data := NullData,
      additionalInfo := map[])
  }

  /** What `buildTransactionFromBlockchain` returns. */
  function FromBlockchain(chainId: string, data: ChainTx): (tx: Transaction)
    ensures tx.id == Some(data.transaction.hash) && tx.nonce == data.transaction.nonce
    ensures tx.publicKey == data.transaction.publicKey && tx.chainId == chainId
    ensures tx.status == NearTransaction.StatusByCode(data.status)
    ensures tx.txType == ContractCall <==> HasFunctionCall(data.transaction.actions)
  {
    ApplyActions(InitialTransaction(chainId, data), data.transaction.actions, data)
  }

  // ---------------------------------------------------------------------------------------
  // Properties of the reconstruction

  predicate PatternHits(log: string, p: LogPattern)
  {
    var m := Search(log, p); m.Some? && m.value.0 != "" && m.value.1 != ""
  }

  /** A pattern that hits sets the amount, the validator and the sender from its match alone. */
  lemma PatternHitFields(tx: Transaction, log: string, p: LogPattern, receiver: string)
    requires PatternHits(log, p)
    ensures var u, g := ApplyPattern(tx, log, p, receiver), Search(log, p).value;
      u.amount == g.0 && u.toAddress == g.1 && u.address == receiver
  {
  }

  /** Once one of the patterns hits, the amount, validator and sender after the patterns no
      longer depend on what came before: later matches overwrite earlier ones. */
  lemma {:induction false} PatternsForget(t1: Transaction, t2: Transaction, log: string, ps: seq<LogPattern>,
                                          receiver: string, k: nat)
    requires k < |ps| && PatternHits(log, ps[k])
    ensures var u1, u2 := ApplyPatterns(t1, log, ps, receiver), ApplyPatterns(t2, log, ps, receiver);
      u1.amount == u2.amount && u1.toAddress == u2.toAddress && u1.address == u2.address
  {
    var last := ps[|ps| - 1];
    var prefix := ps[..|ps| - 1];
    var u1 := ApplyPatterns(t1, log, prefix, receiver);
    var u2 := ApplyPatterns(t2, log, prefix, receiver);
    assert ApplyPatterns(t1, log, ps, receiver) == ApplyPattern(u1, log, last, receiver);
    assert ApplyPatterns(t2, log, ps, receiver) == ApplyPattern(u2, log, last, receiver);
    if k == |ps| - 1 || PatternHits(log, last) {
      PatternHitFields(u1, log, last, receiver);
      PatternHitFields(u2, log, last, receiver);
    } else {
      assert prefix[k] == ps[k];
      PatternsForget(t1, t2, log, prefix, receiver, k);
      assert ApplyPattern(u1, log, last, receiver) == u1;
      assert ApplyPattern(u2, log, last, receiver) == u2;
    }
  }

  /** Patterns none of which hits leave the transaction as it was. */
  lemma {:induction false} NoHitNoEffect(tx: Transaction, log: string, ps: seq<LogPattern>, receiver: string)
    requires forall k :: 0 <= k < |ps| ==> !PatternHits(log, ps[k])
    ensures ApplyPatterns(tx, log, ps, receiver) == tx
  {
    if |ps| > 0 {
      var prefix := ps[..|ps| - 1];
      assert forall k :: 0 <= k < |prefix| ==> prefix[k] == ps[k];
      NoHitNoEffect(tx, log, prefix, receiver);
    }
  }

  /** Last match wins: the amount, validator and sender read from a sequence of logs are those
      that its last log gives, whatever the earlier logs said, as soon as that last log hits one
      of the four patterns. */
  lemma LastHitWins(tx: Transaction, logs: seq<string>, log: string, receiver: string)
    requires exists k :: 0 <= k < |LOG_PATTERNS| && PatternHits(log, LOG_PATTERNS[k])
    ensures var u1, u2 := ApplyLogs(tx, logs + [log], receiver), ApplyLog(tx, log, receiver);
      u1.amount == u2.amount && u1.toAddress == u2.toAddress && u1.address == u2.address
  {
    var all := logs + [log];
    assert all[..|all| - 1] == logs;
    var k :| 0 <= k < |LOG_PATTERNS| && PatternHits(log, LOG_PATTERNS[k]);
    PatternsForget(ApplyLogs(tx, logs, receiver), tx, log, LOG_PATTERNS, receiver, k);
  }

  /** A log that hits none of the patterns and carries no staking amount leaves the
      transaction as it was. */
  lemma SilentLogNoEffect(tx: Transaction, log: string, receiver: string)
    requires forall k :: 0 <= k < |LOG_PATTERNS| ==> !PatternHits(log, LOG_PATTERNS[k])
    requires MatchStaking(log).None? || MatchStaking(log) == Some("")
    ensures ApplyLog(tx, log, receiver) == tx
  {
    NoHitNoEffect(tx, log, LOG_PATTERNS, receiver);
  }

  /** A staking line with a non-empty amount always decides the amount of its log. */
  lemma StakingLineSetsAmount(tx: Transaction, log: string, w: string, n: string, receiver: string)
    requires StakingDecomposes(log, w, n) && n != ""
    ensures ApplyLog(tx, log, receiver).amount == n
  {
    MatchStakingComplete(log, w, n);
  }

  /** A plain transfer (only Transfer actions) stays a TRANSFER from the signer to the receiver
      and reports the deposit of its last action. */
  lemma {:induction false} TransfersOnly(tx: Transaction, acts: seq<RawAction>, data: ChainTx)
    requires |acts| > 0 && forall k :: 0 <= k < |acts| ==> acts[k].TransferRaw?
    ensures var r := ApplyActions(tx, acts, data);
      r.amount == acts[|acts| - 1].deposit && r.address == tx.address && r.toAddress == tx.toAddress
      && r.txType == tx.txType && r.additionalInfo == map["actions" := Actions([TransferAction])]
  {
    var prefix := acts[..|acts| - 1];
    if |prefix| > 0 {
      TransfersOnly(tx, prefix, data);
    }
  }

  // ---------------------------------------------------------------------------------------
  // The operations

  /** The innermost loop of `buildTransactionFromBlockchain`: the four patterns in order on
      one log line. */
  method ReadPatterns(before: Transaction, log: string, receiver: string) returns (tx: Transaction)
    ensures tx == ApplyPatterns(before, log, LOG_PATTERNS, receiver)
  {
    tx := before;
    var q := 0;
    while q < |LOG_PATTERNS|
      invariant 0 <= q <= |LOG_PATTERNS|
      invariant tx == ApplyPatterns(before, log, LOG_PATTERNS[..q], receiver)
    {
      assert LOG_PATTERNS[..q + 1][..q] == LOG_PATTERNS[..q];
      var outcome := Search(log, LOG_PATTERNS[q]);
      if outcome.Some? && outcome.value.0 != "" && outcome.value.1 != "" {
        tx := tx.(amount := outcome.value.0, toAddress := outcome.value.1, address := receiver);
      }
      q := q + 1;
    }
    assert LOG_PATTERNS[..q] == LOG_PATTERNS;
  }

  /** One log line: the patterns, then the staking line. */
  method ReadLogLine(before: Transaction, log: string, receiver: string) returns (tx: Transaction)
    ensures tx == ApplyLog(before, log, receiver)
  {
    tx := ReadPatterns(before, log, receiver);
    var outcomeAmount := MatchStaking(log);
    if Truthy(outcomeAmount) {
      tx := tx.(amount := outcomeAmount.value);
    }
  }

  /** The loops over the receipt outcomes and their logs. */
  method ReadReceipts(start: Transaction, rs: seq<seq<string>>, receiver: string) returns (tx: Transaction)
    ensures tx == ApplyReceipts(start, rs, receiver)
  {
    tx := start;
    var r := 0;
    while r < |rs|
      invariant 0 <= r <= |rs|
      invariant tx == ApplyReceipts(start, rs[..r], receiver)
    {
      assert rs[..r + 1][..r] == rs[..r];
      var logs := rs[r];
      var beforeLogs := tx;
      var l := 0;
      while l < |logs|
        invariant 0 <= l <= |logs|
        invariant tx == ApplyLogs(beforeLogs, logs[..l], receiver)
      {
        assert logs[..l + 1][..l] == logs[..l];
        tx := ReadLogLine(tx, logs[l], receiver);
        l := l + 1;
      }
      assert logs[..l] == logs;
      r := r + 1;
    }
    assert rs[..r] == rs;
  }

  /** `buildTransactionFromBlockchain`: nested loops over actions, receipt outcomes, logs and
      patterns that overwrite the fields of one transaction. */
  method BuildTransactionFromBlockchain(chainId: string, data: ChainTx) returns (tx: Transaction)
    ensures tx == FromBlockchain(chainId, data)
  {
    tx := InitialTransaction(chainId, data);
    var acts := data.transaction.actions;
    var i := 0;
    while i < |acts|
      invariant 0 <= i <= |acts|
      invariant tx == ApplyActions(InitialTransaction(chainId, data), acts[..i], data)
    {
      assert acts[..i + 1][..i] == acts[..i];
      tx := ReadAction(tx, acts[i], data);
      i := i + 1;
    }
    assert acts[..i] == acts;
  }

  /** The body of the loop over the actions. */
  method ReadAction(before: Transaction, act: RawAction, data: ChainTx) returns (tx: Transaction)
    ensures tx == ApplyAction(before, act, data)
  {
    tx := before;
    match act {
    case TransferRaw(d) =>
      tx := tx.(amount := d, additionalInfo := map["actions" := Actions([TransferAction])]);
    case FunctionCallRaw =>
      tx := tx.(txType := ContractCall);
      tx := ReadReceipts(tx, data.receiptLogs, data.transaction.receiverId);
    case OtherRaw =>
    }
  }

  /** `getTransactionStatus`. `cached` is `context.txData.status` when present; `address` the
      context address, where the empty string is as good as absent; `lookup` is the result of
      the `tx` RPC for that address, None when it throws. Every failure is swallowed into an
      undefined status. */
  function GetTransactionStatus(cached: Option<NearTransaction.OutcomeStatus>, address: Option<string>,
                                lookup: Option<ChainTx>, chainId: string): (r: Option<TxStatus>)
    ensures r.Some? ==> r.value == Success || r.value == Failed
    ensures r.None? <==> cached.None? && (address.None? || address.value == "" || lookup.None?)
    ensures cached.Some? ==> r == Some(NearTransaction.StatusByCode(cached.value))
    ensures cached.None? && Truthy(address) && lookup.Some? ==>
      r == Some(FromBlockchain(chainId, lookup.value).status)
  {
    if cached.Some? then Some(NearTransaction.StatusByCode(cached.value))
    else if Truthy(address) then
      match lookup
      case Some(data) => Some(FromBlockchain(chainId, data).status)
      case None => None
    else None
  }
}
