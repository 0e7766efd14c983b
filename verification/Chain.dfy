/** Chained exchanges, section 7.6.1 of ISO/IEC 7816-4:2005, and sequences of them. */
module Chain {
  import opened Bytes
  import opened Apdu

  /** The way to the card: what it answers is a free choice, no answer included. */
  class Link {
    const answers: nat -> Option<bytes>
    ghost var sent: seq<bytes>
    var count: nat

    constructor (answers: nat -> Option<bytes>)
      ensures this.answers == answers && sent == [] && Valid()
    {
      this.answers := answers;
      sent, count := [], 0;
    }

    ghost predicate Valid()
      reads this
    {
      count == |sent|
    }

    method Exchange(cmd: bytes) returns (reply: Option<bytes>)
      requires Valid()
      modifies this
      ensures Valid() && sent == old(sent) + [cmd] && reply == answers(old(count))
    {
      reply := answers(count);
      sent := sent + [cmd];
      count := count + 1;
    }
  }

  function Sw1(r: bytes): byte
    requires |r| >= 2
  {
    r[|r| - 2]
  }

  function Sw2(r: bytes): byte
    requires |r| >= 2
  {
    r[|r| - 1]
  }

  predicate IsMore(r: bytes) { |r| >= 2 && Sw1(r) == MORE_DATA }

  predicate IsWrongLength(r: bytes) { |r| >= 2 && Sw1(r) == WRONG_LENGTH }

  function DataField(r: bytes): bytes { if |r| >= 2 then r[..|r| - 2] else [] }

  /** Every data field in order, and the last status word. */
  function Joined(replies: seq<bytes>): bytes
    requires replies != []
  {
    if |replies| == 1 then replies[0] else DataField(replies[0]) + Joined(replies[1..])
  }

  /** The follow-ups sent are each the answer the standard gives to the reply before: one
      re-send of the command for the first reply, and GET RESPONSE for the others. */
  predicate Answered(cmd: bytes, replies: seq<bytes>, follow: seq<bytes>, resent: nat)
    requires resent <= 1 && cmd != []
  {
    && resent <= |follow| <= resent + MAX_ROUNDS && |replies| >= |follow|
    && (resent == 1 ==> IsWrongLength(replies[0]) && WithShortLe(cmd, Sw2(replies[0])) == Some(follow[0]))
    && forall i | resent <= i < |follow| :: IsMore(replies[i]) && follow[i] == GetResponse(cmd[0], Sw2(replies[i]))
  }

  /** Nothing more is to be sent: the last reply does not ask for it, or the rounds are used up. */
  predicate Complete(cmd: bytes, replies: seq<bytes>, follow: seq<bytes>, resent: nat)
    requires |replies| == |follow| + 1
  {
    && (IsMore(replies[|follow|]) ==> |follow| == resent + MAX_ROUNDS)
    && (resent == 0 && IsWrongLength(replies[0]) ==> WithShortLe(cmd, Sw2(replies[0])).None?)
  }

  /** The replies the link gives from the n-th exchange on. */
  ghost predicate Gave(link: Link, n: nat, replies: seq<bytes>) {
    forall i | 0 <= i < |replies| :: link.answers(n + i) == Some(replies[i])
  }

  lemma {:induction false} JoinedNext(replies: seq<bytes>, r: bytes)
    requires replies != []
    ensures Joined(replies + [r]) == DataOf(replies) + r
    decreases |replies|
  {
    var all, d, rest := replies + [r], DataField(replies[0]), replies[1..];
    assert all[1..] == rest + [r];
    if rest == [] {
      assert all[1..] == [r] && Joined(all) == d + r;
      assert d + [] == d;
    } else {
      JoinedNext(rest, r);
      assert d + (DataOf(rest) + r) == (d + DataOf(rest)) + r;
    }
  }

  function DataOf(replies: seq<bytes>): bytes {
    if replies == [] then [] else DataField(replies[0]) + DataOf(replies[1..])
  }

  lemma {:induction false} DataOfNext(replies: seq<bytes>, r: bytes)
    ensures DataOf(replies + [r]) == DataOf(replies) + DataField(r)
  {
    var all := replies + [r];
    if replies == [] {
      assert all[1..] == [];
    } else {
      assert all[1..] == replies[1..] + [r];
      DataOfNext(replies[1..], r);
    }
  }

  datatype Chained = Chained(reply: bytes, follow: seq<bytes>)

  /** What the replies amount to. */
  function Combine(replies: seq<bytes>, last: bytes): bytes {
    if DataOf(replies) == [] || |last| < 2 then last else DataOf(replies) + last
  }

  /** When every reply has a status word that is all the data fields and the last status word. */
  lemma CombineJoins(replies: seq<bytes>, last: bytes)
    requires |last| >= 2
    ensures Combine(replies, last) == Joined(replies + [last])
  {
    if replies == [] {
      assert replies + [last] == [last];
    } else {
      JoinedNext(replies, last);
      assert [] + last == last;
    }
  }

  /** Where the GET RESPONSE loop stands after so many rounds. */
  ghost predicate Collected(link: Link, n: nat, cmd: bytes, replies: seq<bytes>, follow: seq<bytes>, body: bytes)
    requires cmd != []
  {
    && |replies| == |follow| + 1 && Gave(link, n, replies) && Answered(cmd, replies, follow, 0)
    && body == DataOf(replies[..|follow|])
  }

  /** One more round, up to its answer. */
  lemma AskedMore(link: Link, n: nat, cmd: bytes, replies: seq<bytes>, follow: seq<bytes>, body: bytes)
    requires cmd != [] && Collected(link, n, cmd, replies, follow, body) && IsMore(replies[|follow|]) && |follow| < MAX_ROUNDS
    ensures Answered(cmd, replies, follow + [GetResponse(cmd[0], Sw2(replies[|follow|]))], 0)
  {}

  lemma CollectedMore(link: Link, n: nat, cmd: bytes, replies: seq<bytes>, follow: seq<bytes>, body: bytes, reply: bytes)
    requires cmd != [] && Collected(link, n, cmd, replies, follow, body) && IsMore(replies[|follow|]) && |follow| < MAX_ROUNDS
    requires link.answers(n + |replies|) == Some(reply)
    ensures Collected(link, n, cmd, replies + [reply], follow + [GetResponse(cmd[0], Sw2(replies[|follow|]))], body + DataField(replies[|follow|]))
  {
    var k := |follow|;
    assert (replies + [reply])[..k + 1] == replies[..k] + [replies[k]];
    DataOfNext(replies[..k], replies[k]);
  }

  /** What the GET RESPONSE loop comes to with this reply in hand, this data collected and so
      many rounds left, when the next exchange is the n-th: the result, and the commands still
      to be sent. */
  function CollectFrom(answers: nat -> Option<bytes>, n: nat, cla: byte, reply: bytes, body: bytes, left: nat): (Option<bytes>, seq<bytes>)
    decreases left, n
  {
    if IsMore(reply) && left > 0 then
      var next := GetResponse(cla, Sw2(reply));
      if answers(n).None? then (None, [next])
      else
        var (r, follow) := CollectFrom(answers, n + 1, cla, answers(n).value, body + DataField(reply), left - 1);
        (r, [next] + follow)
    else (Some(if body == [] || |reply| < 2 then reply else body + reply), [])
  }

  /** What a command comes to when it is the n-th: the result, and its follow-ups. */
  function ChainFrom(answers: nat -> Option<bytes>, n: nat, cmd: bytes): (Option<bytes>, seq<bytes>) {
    if answers(n).None? || |cmd| < 4 || |answers(n).value| < 2 then (answers(n), [])
    else
      var reply := answers(n).value;
      var retry := if IsWrongLength(reply) then WithShortLe(cmd, Sw2(reply)) else None;
      if retry.None? then CollectFrom(answers, n + 1, cmd[0], reply, [], MAX_ROUNDS)
      else if answers(n + 1).None? then (None, [retry.value])
      else
        var (r, follow) := CollectFrom(answers, n + 2, cmd[0], answers(n + 1).value, [], MAX_ROUNDS);
        (r, [retry.value] + follow)
  }

  /** One round. */
  lemma CollectStep(answers: nat -> Option<bytes>, n: nat, cla: byte, reply: bytes, body: bytes, left: nat, next: bytes)
    requires IsMore(reply) && left > 0 && next == GetResponse(cla, Sw2(reply))
    ensures var all := CollectFrom(answers, n, cla, reply, body, left);
            if answers(n).None? then all == (None, [next])
            else
              var rest := CollectFrom(answers, n + 1, cla, answers(n).value, body + DataField(reply), left - 1);
              all == (rest.0, [next] + rest.1)
  {}

  /** The result when no round follows. */
  lemma CollectEnds(answers: nat -> Option<bytes>, n: nat, cla: byte, reply: bytes, body: bytes, left: nat)
    requires !IsMore(reply) || left == 0
    ensures CollectFrom(answers, n, cla, reply, body, left) == (Some(if body == [] || |reply| < 2 then reply else body + reply), [])
  {}

  /** What the j-th round of a loop that sent these commands is. */
  lemma CollectTurn(link: Link, n: nat, cmd: bytes, replies: seq<bytes>, follow: seq<bytes>, j: nat)
    requires cmd != [] && Gave(link, n, replies) && Answered(cmd, replies, follow, 0) && j < |follow|
    ensures |follow| <= MAX_ROUNDS && IsMore(replies[j]) && follow[j] == GetResponse(cmd[0], Sw2(replies[j]))
    ensures j + 1 < |replies| ==> link.answers(n + 1 + j) == Some(replies[j + 1])
    ensures DataOf(replies[..j + 1]) == DataOf(replies[..j]) + DataField(replies[j])
  {
    assert replies[..j + 1] == replies[..j] + [replies[j]];
    DataOfNext(replies[..j], replies[j]);
    if j + 1 < |replies| {
      assert link.answers(n + (j + 1)) == Some(replies[j + 1]);
    }
  }

  /** From the round after the j-th to the j-th. */
  lemma CollectRound(link: Link, n: nat, cmd: bytes, replies: seq<bytes>, follow: seq<bytes>, r: Option<bytes>, j: nat)
    requires cmd != [] && Gave(link, n, replies) && Answered(cmd, replies, follow, 0) && j < |follow| && j + 1 < |replies|
    requires CollectFrom(link.answers, n + 2 + j, cmd[0], replies[j + 1], DataOf(replies[..j + 1]), MAX_ROUNDS - j - 1) == (r, follow[j + 1..])
    ensures CollectFrom(link.answers, n + 1 + j, cmd[0], replies[j], DataOf(replies[..j]), MAX_ROUNDS - j) == (r, follow[j..])
  {
    CollectTurn(link, n, cmd, replies, follow, j);
    CollectStep(link.answers, n + 1 + j, cmd[0], replies[j], DataOf(replies[..j]), MAX_ROUNDS - j, follow[j]);
    assert follow[j..] == [follow[j]] + follow[j + 1..];
  }

  /** The loop's result when the card did not answer the last command. */
  lemma {:induction false} CollectLost(link: Link, n: nat, cmd: bytes, replies: seq<bytes>, follow: seq<bytes>, j: nat)
    requires cmd != [] && Gave(link, n, replies) && Answered(cmd, replies, follow, 0) && j < |follow| == |replies|
    requires link.answers(n + |follow|).None?
    ensures CollectFrom(link.answers, n + 1 + j, cmd[0], replies[j], DataOf(replies[..j]), MAX_ROUNDS - j) == (None, follow[j..])
    decreases |follow| - j
  {
    if j + 1 < |follow| {
      CollectLost(link, n, cmd, replies, follow, j + 1);
      CollectRound(link, n, cmd, replies, follow, None, j);
    } else {
      CollectTurn(link, n, cmd, replies, follow, j);
      CollectStep(link.answers, n + 1 + j, cmd[0], replies[j], DataOf(replies[..j]), MAX_ROUNDS - j, follow[j]);
      assert follow[j..] == [follow[j]];
    }
  }

  /** The loop's result when it came to its end. */
  lemma {:induction false} CollectDone(link: Link, n: nat, cmd: bytes, replies: seq<bytes>, follow: seq<bytes>, r: bytes, j: nat)
    requires cmd != [] && Gave(link, n, replies) && Answered(cmd, replies, follow, 0) && j <= |follow| && |replies| == |follow| + 1
    requires (IsMore(replies[|follow|]) ==> |follow| == MAX_ROUNDS) && r == Combine(replies[..|follow|], replies[|follow|])
    ensures |follow| <= MAX_ROUNDS
    ensures CollectFrom(link.answers, n + 1 + j, cmd[0], replies[j], DataOf(replies[..j]), MAX_ROUNDS - j) == (Some(r), follow[j..])
    decreases |follow| - j
  {
    if j == |follow| {
      CollectEnds(link.answers, n + 1 + j, cmd[0], replies[j], DataOf(replies[..j]), MAX_ROUNDS - j);
      assert follow[j..] == [];
    } else {
      CollectDone(link, n, cmd, replies, follow, r, j + 1);
      CollectRound(link, n, cmd, replies, follow, Some(r), j);
    }
  }

  lemma CollectIs(link: Link, n: nat, cmd: bytes, replies: seq<bytes>, follow: seq<bytes>, r: Option<bytes>)
    requires cmd != [] && Gave(link, n, replies) && Answered(cmd, replies, follow, 0) && replies != []
    requires if r.None? then |replies| == |follow| && link.answers(n + |follow|).None?
             else |replies| == |follow| + 1 && (IsMore(replies[|follow|]) ==> |follow| == MAX_ROUNDS)
                  && r.value == Combine(replies[..|follow|], replies[|follow|])
    ensures CollectFrom(link.answers, n + 1, cmd[0], replies[0], [], MAX_ROUNDS) == (r, follow)
  {
    if r.None? {
      CollectLost(link, n, cmd, replies, follow, 0);
    } else {
      CollectDone(link, n, cmd, replies, follow, r.value, 0);
    }
    assert replies[..0] == [] && follow[0..] == follow;
  }

  /** The GET RESPONSE loop, for the reply in hand. */
  method Collect(link: Link, cmd: bytes, first: bytes, ghost n: nat) returns (r: Option<bytes>, follow: seq<bytes>, ghost replies: seq<bytes>)
    requires link.Valid() && cmd != [] && link.count == n + 1 && link.answers(n) == Some(first)
    modifies link
    ensures link.Valid() && link.sent == old(link.sent) + follow && Gave(link, n, replies)
    ensures Answered(cmd, replies, follow, 0) && replies != [] && replies[0] == first
    ensures if r.None? then |replies| == |follow| && link.answers(n + |follow|).None?
            else |replies| == |follow| + 1 && (IsMore(replies[|follow|]) ==> |follow| == MAX_ROUNDS)
                 && r.value == Combine(replies[..|follow|], replies[|follow|])
  {
    var reply, body: bytes := first, [];
    follow, replies := [], [first];
    var rounds := 0;
    while IsMore(reply) && rounds < MAX_ROUNDS
      invariant 0 <= rounds <= MAX_ROUNDS && |follow| == rounds
      invariant link.Valid() && link.sent == old(link.sent) + follow && link.count == n + 1 + rounds
      invariant Collected(link, n, cmd, replies, follow, body) && reply == replies[rounds] && replies[0] == first
    {
      var next := GetResponse(cmd[0], Sw2(reply));
      AskedMore(link, n, cmd, replies, follow, body);
      var got := link.Exchange(next);
      if got.None? { return None, follow + [next], replies; }
      CollectedMore(link, n, cmd, replies, follow, body, got.value);
      body := body + DataField(reply);
      follow := follow + [next];
      reply := got.value;
      replies := replies + [reply];
      rounds := rounds + 1;
    }
    r := Some(if body == [] || |reply| < 2 then reply else body + reply);
  }

  /** The loop, and what it comes to. */
  method CollectAll(link: Link, cmd: bytes, first: bytes, ghost n: nat) returns (r: Option<bytes>, follow: seq<bytes>, ghost replies: seq<bytes>)
    requires link.Valid() && cmd != [] && link.count == n + 1 && link.answers(n) == Some(first)
    modifies link
    ensures link.Valid() && link.sent == old(link.sent) + follow && Gave(link, n, replies)
    ensures Answered(cmd, replies, follow, 0) && replies != [] && replies[0] == first
    ensures if r.None? then |replies| == |follow| && link.answers(n + |follow|).None?
            else |replies| == |follow| + 1 && (IsMore(replies[|follow|]) ==> |follow| == MAX_ROUNDS)
                 && r.value == Combine(replies[..|follow|], replies[|follow|])
    ensures (r, follow) == CollectFrom(link.answers, n + 1, cmd[0], first, [], MAX_ROUNDS)
  {
    r, follow, replies := Collect(link, cmd, first, n);
    CollectIs(link, n, cmd, replies, follow, r);
  }

  /** A whole exchange: what was sent, and what the replies amount to. */
  ghost predicate Exchanged(link: Link, n: nat, cmd: bytes, r: Option<bytes>, follow: seq<bytes>, replies: seq<bytes>, resent: nat)
    requires resent <= 1
  {
    && Gave(link, n, replies) && |follow| <= 1 + MAX_ROUNDS
    && (follow != [] ==> |cmd| >= 4 && Answered(cmd, replies, follow, resent))
    && resent <= |follow|
    && if r.None? then |replies| == |follow| && link.answers(n + |follow|).None?
       else
         && |replies| == |follow| + 1
         && (|cmd| >= 4 ==> Complete(cmd, replies, follow, resent))
         && ((forall i | 0 <= i < |replies| :: |replies[i]| >= 2) ==> r.value == Joined(replies[resent..]))
  }

  /** Collecting after a re-send. */
  lemma AfterResend(link: Link, n: nat, cmd: bytes, first: bytes, retry: bytes, r: Option<bytes>, follow: seq<bytes>, replies: seq<bytes>)
    requires |cmd| >= 4 && link.answers(n) == Some(first) && IsWrongLength(first) && WithShortLe(cmd, Sw2(first)) == Some(retry)
    requires Gave(link, n + 1, replies) && Answered(cmd, replies, follow, 0) && replies != []
    requires if r.None? then |replies| == |follow| && link.answers(n + 1 + |follow|).None?
             else |replies| == |follow| + 1 && (IsMore(replies[|follow|]) ==> |follow| == MAX_ROUNDS)
                  && r.value == Combine(replies[..|follow|], replies[|follow|])
    ensures Exchanged(link, n, cmd, r, [retry] + follow, [first] + replies, 1)
  {
    var fs, rs := [retry] + follow, [first] + replies;
    assert rs[1..] == replies;
    GaveBefore(link, n, first, replies);
    AnsweredBefore(cmd, first, retry, replies, follow);
    if r.Some? && forall i | 0 <= i < |rs| :: |rs[i]| >= 2 {
      assert |rs[|rs| - 1]| >= 2;
      CombineJoins(replies[..|follow|], replies[|follow|]);
      assert replies[..|follow|] + [replies[|follow|]] == replies;
    }
  }

  lemma Assoc<T>(a: seq<T>, b: seq<T>, c: seq<T>)
    ensures (a + b) + c == a + (b + c)
  {}

  lemma GaveBefore(link: Link, n: nat, first: bytes, replies: seq<bytes>)
    requires link.answers(n) == Some(first) && Gave(link, n + 1, replies)
    ensures Gave(link, n, [first] + replies)
  {
    forall i | 0 <= i < |replies| + 1
      ensures link.answers(n + i) == Some(([first] + replies)[i])
    {
      if i > 0 {
        assert link.answers((n + 1) + (i - 1)) == Some(replies[i - 1]);
      }
    }
  }

  lemma AnsweredBefore(cmd: bytes, first: bytes, retry: bytes, replies: seq<bytes>, follow: seq<bytes>)
    requires cmd != [] && IsWrongLength(first) && WithShortLe(cmd, Sw2(first)) == Some(retry) && Answered(cmd, replies, follow, 0)
    ensures Answered(cmd, [first] + replies, [retry] + follow, 1)
  {}

  lemma WithoutResend(link: Link, n: nat, cmd: bytes, r: Option<bytes>, follow: seq<bytes>, replies: seq<bytes>)
    requires |cmd| >= 4 && Gave(link, n, replies) && Answered(cmd, replies, follow, 0) && replies != []
    requires IsWrongLength(replies[0]) ==> WithShortLe(cmd, Sw2(replies[0])).None?
    requires if r.None? then |replies| == |follow| && link.answers(n + |follow|).None?
             else |replies| == |follow| + 1 && (IsMore(replies[|follow|]) ==> |follow| == MAX_ROUNDS)
                  && r.value == Combine(replies[..|follow|], replies[|follow|])
    ensures Exchanged(link, n, cmd, r, follow, replies, 0)
  {
    assert replies[0..] == replies;
    if r.Some? && forall i | 0 <= i < |replies| :: |replies[i]| >= 2 {
      CombineJoins(replies[..|follow|], replies[|follow|]);
      assert replies[..|follow|] + [replies[|follow|]] == replies;
    }
  }

  /** ExchangeChained. What is sent is the command and then the follow-ups, at most 66 in
      all, each the answer to the reply before; and when every reply has a status word, the
      result is every data field from the command or its re-send on, and the last status word. */
  method ExchangeChained(link: Link, cmd: bytes) returns (r: Option<bytes>, follow: seq<bytes>, ghost replies: seq<bytes>, ghost resent: nat)
    requires link.Valid()
    modifies link
    ensures link.Valid() && link.sent == old(link.sent) + [cmd] + follow && 1 + |follow| <= 66
    ensures resent <= 1 && Exchanged(link, old(link.count), cmd, r, follow, replies, resent)
    ensures (r, follow) == ChainFrom(link.answers, old(link.count), cmd)
  {
    ghost var n := link.count;
    follow, replies, resent := [], [], 0;
    var first := link.Exchange(cmd);
    if first.None? { return None, [], [], 0; }
    var reply := first.value;
    replies := [reply];
    if |cmd| < 4 || |reply| < 2 {
      PassedThrough(link, n, cmd, reply);
      return Some(reply), [], replies, 0;
    }
    var retry := if IsWrongLength(reply) then WithShortLe(cmd, Sw2(reply)) else None;
    if retry.Some? {
      r, follow, replies := Resend(link, cmd, retry.value, reply, n);
      resent := 1;
    } else {
      r, follow, replies := CollectAll(link, cmd, reply, n);
      WithoutResend(link, n, cmd, r, follow, replies);
    }
  }

  lemma PassedThrough(link: Link, n: nat, cmd: bytes, reply: bytes)
    requires link.answers(n) == Some(reply) && (|cmd| < 4 || |reply| < 2)
    ensures Exchanged(link, n, cmd, Some(reply), [], [reply], 0)
  {
    assert [reply][0..] == [reply];
  }

  lemma ResendLost(link: Link, n: nat, cmd: bytes, retry: bytes, first: bytes)
    requires |cmd| >= 4 && link.answers(n) == Some(first) && IsWrongLength(first) && WithShortLe(cmd, Sw2(first)) == Some(retry)
    requires link.answers(n + 1).None?
    ensures Exchanged(link, n, cmd, None, [retry], [first], 1)
  {}

  /** The command once more, with the Le the card named. */
  method Resend(link: Link, cmd: bytes, retry: bytes, ghost first: bytes, ghost n: nat) returns (r: Option<bytes>, follow: seq<bytes>, ghost replies: seq<bytes>)
    requires link.Valid() && |cmd| >= 4 && link.count == n + 1 && link.answers(n) == Some(first)
    requires IsWrongLength(first) && WithShortLe(cmd, Sw2(first)) == Some(retry)
    modifies link
    ensures link.Valid() && link.sent == old(link.sent) + follow && follow != []
    ensures Exchanged(link, n, cmd, r, follow, replies, 1)
    ensures (r, follow) == if link.answers(n + 1).None? then (None, [retry])
                           else
                             var (r', more) := CollectFrom(link.answers, n + 2, cmd[0], link.answers(n + 1).value, [], MAX_ROUNDS);
                             (r', [retry] + more)
  {
    var second := link.Exchange(retry);
    if second.None? {
      ResendLost(link, n, cmd, retry, first);
      return None, [retry], [first];
    }
    var more;
    ghost var rest;
    r, more, rest := CollectAll(link, cmd, second.value, n + 1);
    AfterResend(link, n, cmd, first, retry, r, more, rest);
    Assoc(old(link.sent), [retry], more);
    follow, replies := [retry] + more, [first] + rest;
  }

  // ---- sequences ----

  const MAX_STEPS: nat := 32

  datatype Step = Step(data: bytes, allowed: seq<nat>, stopOn: seq<nat>, chained: bool)

  function StatusWord(r: bytes): nat
    requires |r| >= 2
  {
    Sw1(r) as nat * 256 + Sw2(r) as nat
  }

  /** The reply ends the run: its status word is one to stop on, or not one expected. */
  predicate Stops(s: Step, r: bytes) {
    || (|r| >= 2 && StatusWord(r) in s.stopOn)
    || (s.allowed != [] && (|r| < 2 || StatusWord(r) !in s.allowed))
  }

  method Contains(words: seq<nat>, sw: nat) returns (found: bool)
    ensures found <==> sw in words
  {
    for i := 0 to |words|
      invariant sw !in words[..i]
    {
      if words[i] == sw { return true; }
    }
    assert words[..|words|] == words;
    return false;
  }

  /** SequenceStep.Stops, as it is decided. */
  method DecideStop(s: Step, r: bytes) returns (stops: bool)
    ensures stops <==> Stops(s, r)
  {
    if s.allowed == [] && s.stopOn == [] { return false; }
    if |r| < 2 { return s.allowed != []; }
    var sw := StatusWord(r);
    var stop := Contains(s.stopOn, sw);
    if stop { return true; }
    if s.allowed == [] { return false; }
    var ok := Contains(s.allowed, sw);
    return !ok;
  }

  predicate Valid(steps: seq<Step>) {
    0 < |steps| <= MAX_STEPS && forall i | 0 <= i < |steps| :: steps[i].data != []
  }

  method ValidateSequence(steps: seq<Step>) returns (ok: bool)
    ensures ok <==> Valid(steps)
  {
    if |steps| == 0 || |steps| > MAX_STEPS { return false; }
    for i := 0 to |steps|
      invariant forall j | 0 <= j < i :: steps[j].data != []
    {
      if steps[i].data == [] { return false; }
    }
    return true;
  }

  datatype Outcome = Outcome(replies: seq<bytes>, followups: seq<seq<bytes>>, stoppedAt: int)

  /** The commands of the steps that ran, each followed by its follow-ups. */
  function Commands(steps: seq<Step>, followups: seq<seq<bytes>>): seq<bytes>
    requires |followups| <= |steps|
    decreases |followups|
  {
    if followups == [] then []
    else
      var n := |followups| - 1;
      Commands(steps, followups[..n]) + ([steps[n].data] + followups[n])
  }

  /** The reply to a step whose command is the n-th, and its follow-ups. */
  function StepFrom(answers: nat -> Option<bytes>, n: nat, step: Step): (Option<bytes>, seq<bytes>) {
    if step.chained then ChainFrom(answers, n, step.data) else (answers(n), [])
  }

  /** What each step comes to, by the number of its command. */
  type Steps = (nat, Step) -> (Option<bytes>, seq<bytes>)

  function StepsOf(answers: nat -> Option<bytes>): Steps { (n: nat, step: Step) => StepFrom(answers, n, step) }

  /** These steps ran, the first command being the n-th: each reply and its follow-ups are
      what that step comes to, and no reply stopped the run. */
  predicate RanOn(f: Steps, n: nat, steps: seq<Step>, replies: seq<bytes>, followups: seq<seq<bytes>>)
    decreases |replies|
  {
    && |replies| == |followups| <= |steps|
    && (replies != [] ==>
          var m := |replies| - 1;
          && RanOn(f, n, steps, replies[..m], followups[..m])
          && f(n + |Commands(steps, followups[..m])|, steps[m]) == (Some(replies[m]), followups[m])
          && !Stops(steps[m], replies[m]))
  }

  /** The results line up with the steps, and the run ends at the first reply that stops it. */
  predicate Ran(f: Steps, n: nat, steps: seq<Step>, o: Outcome) {
    if o.stoppedAt == -1 then RanOn(f, n, steps, o.replies, o.followups)
    else
      var m := |o.replies| - 1;
      && 0 <= m == o.stoppedAt < |steps| && |o.followups| == m + 1
      && RanOn(f, n, steps, o.replies[..m], o.followups[..m])
      && f(n + |Commands(steps, o.followups[..m])|, steps[m]) == (Some(o.replies[m]), o.followups[m])
      && Stops(steps[m], o.replies[m])
  }

  lemma {:induction false} RanOnMeans(f: Steps, n: nat, steps: seq<Step>, replies: seq<bytes>, followups: seq<seq<bytes>>, i: nat)
    requires RanOn(f, n, steps, replies, followups) && i < |replies|
    ensures !Stops(steps[i], replies[i])
    ensures f(n + |Commands(steps, followups[..i])|, steps[i]) == (Some(replies[i]), followups[i])
    decreases |replies|
  {
    var m := |replies| - 1;
    if i < m {
      RanOnMeans(f, n, steps, replies[..m], followups[..m], i);
      assert followups[..m][..i] == followups[..i];
    }
  }

  /** Replies and follow-ups are aligned with the steps and are what each step comes to, and the reply that stops the run is the last one and no other. */
  lemma RanMeans(f: Steps, n: nat, steps: seq<Step>, o: Outcome, i: nat)
    requires Ran(f, n, steps, o) && i < |o.replies|
    ensures |o.replies| == |o.followups| <= |steps|
    ensures (Stops(steps[i], o.replies[i]) <==> i == o.stoppedAt) && (i == o.stoppedAt ==> i == |o.replies| - 1)
    ensures f(n + |Commands(steps, o.followups[..i])|, steps[i]) == (Some(o.replies[i]), o.followups[i])
  {
    var m := |o.replies| - 1;
    if o.stoppedAt == -1 {
      RanOnMeans(f, n, steps, o.replies, o.followups, i);
    } else if i < m {
      RanOnMeans(f, n, steps, o.replies[..m], o.followups[..m], i);
      assert o.followups[..m][..i] == o.followups[..i];
    }
  }

  /** One step of a sequence. */
  method RunStep(link: Link, step: Step) returns (r: Option<bytes>, follow: seq<bytes>)
    requires link.Valid()
    modifies link
    ensures link.Valid() && link.sent == old(link.sent) + ([step.data] + follow)
    ensures (r, follow) == StepFrom(link.answers, old(link.count), step)
    ensures r.None? ==> link.answers(link.count - 1).None?
  {
    if step.chained {
      ghost var replies, resent;
      r, follow, replies, resent := ExchangeChained(link, step.data);
    } else {
      follow := [];
      r := link.Exchange(step.data);
    }
  }

  lemma RanNext(f: Steps, n: nat, steps: seq<Step>, o: Outcome, reply: bytes, follow: seq<bytes>)
    requires Ran(f, n, steps, o) && o.stoppedAt == -1 && |o.replies| < |steps|
    requires f(n + |Commands(steps, o.followups)|, steps[|o.replies|]) == (Some(reply), follow)
    ensures var i := |o.replies|;
            Ran(f, n, steps, Outcome(o.replies + [reply], o.followups + [follow], if Stops(steps[i], reply) then i else -1))
  {
    assert (o.followups + [follow])[..|o.followups|] == o.followups;
    assert (o.replies + [reply])[..|o.replies|] == o.replies;
  }

  lemma CommandsNext(steps: seq<Step>, followups: seq<seq<bytes>>, follow: seq<bytes>)
    requires |followups| < |steps|
    ensures Commands(steps, followups + [follow]) == Commands(steps, followups) + ([steps[|followups|].data] + follow)
  {
    assert (followups + [follow])[..|followups|] == followups;
  }

  /** The function gives what each step comes to with this card. */
  ghost predicate Means(link: Link, f: Steps) {
    forall n: nat, step: Step {:trigger StepFrom(link.answers, n, step)} :: f(n, step) == StepFrom(link.answers, n, step)
  }

  /** After these steps ran, the next one got no answer, and these were its follow-ups. */
  predicate Broke(f: Steps, n: nat, steps: seq<Step>, o: Outcome, follow: seq<bytes>) {
    && Ran(f, n, steps, o) && o.stoppedAt == -1 && |o.replies| == |o.followups| < |steps|
    && f(n + |Commands(steps, o.followups)|, steps[|o.replies|]) == (None, follow)
  }

  /** The next step of a run. */
  method RunNext(link: Link, steps: seq<Step>, o: Outcome, ghost f: Steps, ghost n: nat, ghost before: seq<bytes>) returns (r: Option<Outcome>, ghost follow: seq<bytes>)
    requires link.Valid() && Means(link, f) && Ran(f, n, steps, o) && o.stoppedAt == -1 && |o.replies| < |steps|
    requires |o.followups| == |o.replies| && n == |before| && link.sent == before + Commands(steps, o.followups)
    modifies link
    ensures link.Valid()
    ensures link.sent == before + Commands(steps, o.followups + [follow])
    ensures if r.None? then link.count > 0 && link.answers(link.count - 1).None? && Broke(f, n, steps, o, follow)
            else
              && Ran(f, n, steps, r.value) && |r.value.replies| == |r.value.followups| == |o.replies| + 1
              && r.value.followups == o.followups + [follow]
  {
    var i := |o.replies|;
    var reply, more := RunStep(link, steps[i]);
    follow := more;
    CommandsNext(steps, o.followups, more);
    Assoc(before, Commands(steps, o.followups), [steps[i].data] + more);
    if reply.None? { return None, follow; }
    RanNext(f, n, steps, o, reply.value, more);
    var stop := DecideStop(steps[i], reply.value);
    r := Some(Outcome(o.replies + [reply.value], o.followups + [more], if stop then i else -1));
  }

  method RunLoop(link: Link, steps: seq<Step>, ghost f: Steps) returns (r: Option<Outcome>, ghost ran: Outcome, ghost follow: seq<bytes>)
    requires link.Valid() && Means(link, f)
    modifies link
    ensures link.Valid()
    ensures if r.None? then
              && link.count > 0 && link.answers(link.count - 1).None? && Broke(f, old(link.count), steps, ran, follow)
              && link.sent == old(link.sent) + Commands(steps, ran.followups + [follow])
            else
              && Ran(f, old(link.count), steps, r.value) && |r.value.followups| <= |steps|
              && link.sent == old(link.sent) + Commands(steps, r.value.followups)
              && (r.value.stoppedAt == -1 ==> |r.value.replies| == |steps|)
  {
    var o := Outcome([], [], -1);
    ghost var n, before := link.count, link.sent;
    for i := 0 to |steps|
      invariant |o.replies| == |o.followups| == i && o.stoppedAt == -1 && Ran(f, n, steps, o)
      invariant link.Valid() && link.sent == before + Commands(steps, o.followups)
    {
      var next;
      next, follow := RunNext(link, steps, o, f, n, before);
      if next.None? || next.value.stoppedAt != -1 { return next, o, follow; }
      o := next.value;
    }
    return Some(o), o, [];
  }

  /** RunSequence. On success everything sent is accounted for by the steps that ran, every
      reply is what the card's answers come to, and all steps ran unless a reply stopped the
      run. A failure is an exchange the card did not answer: the steps in `ran` ran, and the next
      one failed after these follow-ups. */
  method RunSequence(link: Link, steps: seq<Step>) returns (r: Option<Outcome>, ghost ran: Outcome, ghost follow: seq<bytes>)
    requires link.Valid()
    modifies link
    ensures link.Valid()
    ensures if r.None? then
              && link.count > 0 && link.answers(link.count - 1).None? && Broke(StepsOf(link.answers), old(link.count), steps, ran, follow)
              && link.sent == old(link.sent) + Commands(steps, ran.followups + [follow])
            else
              && Ran(StepsOf(link.answers), old(link.count), steps, r.value) && |r.value.followups| <= |steps|
              && link.sent == old(link.sent) + Commands(steps, r.value.followups)
              && (r.value.stoppedAt == -1 ==> |r.value.replies| == |steps|)
  {
    r, ran, follow := RunLoop(link, steps, StepsOf(link.answers));
  }
}
