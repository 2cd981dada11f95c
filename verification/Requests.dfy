/**
 Requests to a daemon: the retry loop of `send_command`, the classification of errors
 (connection.rs) and the respawn of main.rs, against any daemon that answers as a function
 of its state.
*/
module Requests {
  import opened Text
  import opened Numbers

  datatype Reply<R> = Response(response: R) | Error(message: string)

  /** The daemon of a session and the two error classes. One connection takes the state before and
      the command to the state after and the reply; `ensure` is `ensure_daemon`. */
  datatype Server<!W, !C, !R> = Server(
    answer: (W, C) -> (W, Reply<R>), ensure: W -> (W, bool), transient: string -> bool, unreachable: string -> bool)

  const MAX_RETRIES: nat := 5
  const GAVE_UP := " (after 5 retries - daemon may be busy or unresponsive)"

  // ---------------------------------------------------------------- error classes

  function OsError(code: nat): string {
    "(os error " + Render(code, 10) + ")"
  }

  predicate HasOsError(message: string, code: nat) {
    Contains(message, OsError(code))
  }

  const TRANSIENT_CODES: set<nat> := {35, 11, 54, 104, 10054}
  const UNREACHABLE_CODES: set<nat> := {2, 61, 111, 10061}
  const TRANSIENT_TEXTS: set<string> :=
    {"WouldBlock", "Resource temporarily unavailable", "EOF", "line 1 column 0", "Connection reset", "Broken pipe"}
  const CONNECT_FAILED := "Failed to connect"

  /** Worth another attempt against the same daemon. */
  predicate IsTransient(message: string) {
    || (exists code <- TRANSIENT_CODES :: HasOsError(message, code))
    || (exists text <- TRANSIENT_TEXTS :: Contains(message, text))
  }

  /** No daemon listens. */
  predicate Unreachable(message: string) {
    || Contains(message, CONNECT_FAILED)
    || (exists code <- UNREACHABLE_CODES :: HasOsError(message, code))
  }

  /** The server that the program talks to. */
  function ProgramServer<W, C, R>(answer: (W, C) -> (W, Reply<R>), ensure: W -> (W, bool)): Server<W, C, R> {
    Server(answer, ensure, IsTransient, Unreachable)
  }

  // ---------------------------------------------------------------- send_command

  /** What a round gives: the state after it, the reply and the number of connections. */
  datatype Outcome<W, R> = Outcome(world: W, reply: Reply<R>, used: nat)

  predicate Retries<W, C, R>(server: Server<W, C, R>, reply: Reply<R>) {
    reply.Error? && server.transient(reply.message)
  }

  function Round<W, C, R>(server: Server<W, C, R>, w: W, cmd: C, left: nat): Outcome<W, R>
    requires left > 0
  {
    var (next, reply) := server.answer(w, cmd);
    if !Retries(server, reply) then Outcome(next, reply, 1)
    else if left == 1 then Outcome(next, Error(reply.message + GAVE_UP), 1)
    else
      var rest := Round(server, next, cmd, left - 1);
      rest.(used := rest.used + 1)
  }

  method SendCommand<W, C, R>(server: Server<W, C, R>, w: W, cmd: C) returns (w': W, reply: Reply<R>, used: nat)
    ensures Outcome(w', reply, used) == Round(server, w, cmd, MAX_RETRIES)
  {
    var lastError := "";
    w' := w;
    ghost var goal := Round(server, w, cmd, MAX_RETRIES);
    for attempt := 0 to MAX_RETRIES
      invariant attempt < MAX_RETRIES ==>
        goal == (var rest := Round(server, w', cmd, MAX_RETRIES - attempt); rest.(used := rest.used + attempt))
      invariant attempt == MAX_RETRIES ==> goal == Outcome(w', Error(lastError + GAVE_UP), MAX_RETRIES)
    {
      var (next, answer) := server.answer(w', cmd);
      w' := next;
      if !Retries(server, answer) {
        return w', answer, attempt + 1;
      }
      lastError := answer.message;
    }
    return w', Error(lastError + GAVE_UP), MAX_RETRIES;
  }

  /** The daemon's state after k connections with this command. */
  function After<W, C, R>(server: Server<W, C, R>, w: W, cmd: C, k: nat): W {
    if k == 0 then w else After(server, server.answer(w, cmd).0, cmd, k - 1)
  }

  /** The reply of connection k, counted from 0. */
  function ReplyAt<W, C, R>(server: Server<W, C, R>, w: W, cmd: C, k: nat): Reply<R> {
    server.answer(After(server, w, cmd, k), cmd).1
  }

  /** The first reply that is not transient decides; with none among `left`, the last error is reported. */
  ghost predicate IsRound<W, C, R>(server: Server<W, C, R>, w: W, cmd: C, left: nat, o: Outcome<W, R>) {
    && 1 <= o.used <= left
    && o.world == After(server, w, cmd, o.used)
    && (forall k: nat | k < o.used - 1 :: Retries(server, ReplyAt(server, w, cmd, k)))
    && var last := ReplyAt(server, w, cmd, o.used - 1);
       if Retries(server, last) then o.used == left && o.reply == Error(last.message + GAVE_UP) else o.reply == last
  }

  lemma {:induction false} RoundIsFirstSettledReply<W, C, R>(server: Server<W, C, R>, w: W, cmd: C, left: nat)
    requires left > 0
    ensures IsRound(server, w, cmd, left, Round(server, w, cmd, left))
  {
    var (next, reply) := server.answer(w, cmd);
    assert After(server, w, cmd, 0) == w && ReplyAt(server, w, cmd, 0) == reply;
    if Retries(server, reply) && left > 1 {
      RoundIsFirstSettledReply(server, next, cmd, left - 1);
      var o := Round(server, w, cmd, left);
      forall k: nat | 0 < k ensures ReplyAt(server, w, cmd, k) == ReplyAt(server, next, cmd, k - 1) {
      }
    } else {
      assert After(server, w, cmd, 1) == After(server, next, cmd, 0) == next;
    }
  }

  // ---------------------------------------------------------------- send_command_with_respawn

  /** One round; when no daemon listens, start one and do a second round. */
  function SendWithRespawn<W, C, R>(server: Server<W, C, R>, w: W, cmd: C): Outcome<W, R> {
    var first := Round(server, w, cmd, MAX_RETRIES);
    if first.reply.Error? && server.unreachable(first.reply.message) then
      var (w2, started) := server.ensure(first.world);
      if started then
        var second := Round(server, w2, cmd, MAX_RETRIES);
        second.(used := second.used + first.used)
      else first.(world := w2)
    else first
  }

  /** The first round ended in an error that says no daemon listens. */
  predicate Respawns<W, C, R>(server: Server<W, C, R>, first: Outcome<W, R>) {
    first.reply.Error? && server.unreachable(first.reply.message)
  }

  /** A command costs at most two rounds of five connections; there is a second one exactly
      when the first found no daemon and a new one was started, and then it alone decides. */
  lemma {:induction false} RespawnCost<W, C, R>(server: Server<W, C, R>, w: W, cmd: C)
    returns (first: Outcome<W, R>, second: Outcome<W, R>)
    ensures IsRound(server, w, cmd, 5, first)
    ensures IsRound(server, server.ensure(first.world).0, cmd, 5, second)
    ensures var twice := Respawns(server, first) && server.ensure(first.world).1;
      && SendWithRespawn(server, w, cmd).reply == (if twice then second.reply else first.reply)
      && SendWithRespawn(server, w, cmd).used == first.used + (if twice then second.used else 0) <= 10
      && SendWithRespawn(server, w, cmd).world
         == (if twice then second.world
             else if Respawns(server, first) then server.ensure(first.world).0 else first.world)
  {
    first := Round(server, w, cmd, MAX_RETRIES);
    second := Round(server, server.ensure(first.world).0, cmd, MAX_RETRIES);
    RoundIsFirstSettledReply(server, w, cmd, MAX_RETRIES);
    RoundIsFirstSettledReply(server, server.ensure(first.world).0, cmd, MAX_RETRIES);
  }

  // ---------------------------------------------------------------- what the classes mean

  lemma {:induction false} RenderHasDigits(n: nat, c: char)
    requires !IsDigit(c)
    ensures c !in Render(n, 10)
  {
  }

  const MARK: string := "(os error "

  /** An error code is matched exactly: 11 is not found in 111. */
  lemma {:induction false} OsErrorIsExact(prefix: string, n: nat, code: nat)
    requires !Contains(prefix, MARK)
    ensures HasOsError(prefix + OsError(n), code) <==> n == code
  {
    var s := prefix + OsError(n);
    if n == code {
      assert s[|prefix|..|prefix| + |OsError(code)|] == OsError(code);
      assert At(s, OsError(code), |prefix|);
    } else {
      forall k ensures !At(s, OsError(code), k) {
        if At(s, OsError(code), k) {
          OsErrorAtItsParenthesis(prefix, n, code, k);
        }
      }
    }
  }

  /** The code is found nowhere but at its own mark. */
  lemma {:induction false} MarkStandsOnce(prefix: string, n: nat, code: nat, k: nat)
    requires !Contains(prefix, MARK) && At(prefix + OsError(n), OsError(code), k)
    ensures k == |prefix|
  {
    var s, needle := prefix + OsError(n), OsError(code);
    RenderHasDigits(n, '(');
    assert s[|prefix|..][1..] == OsError(n)[1..] && '(' !in OsError(n)[1..];
    assert forall j | |prefix| < j < |s| :: s[j] == OsError(n)[1..][j - |prefix| - 1];
    AtIndex(s, needle, k, 0);
    assert '(' !in MARK[1..];
    if k < |prefix| {
      MarkInFront(prefix, OsError(n), needle, k);
    }
  }

  /** A needle that starts with the mark does not start in a text without the mark that is
      followed by a parenthesis. */
  lemma {:induction false} MarkInFront(prefix: string, rest: string, needle: string, k: nat)
    requires MARK <= needle && k < |prefix| && At(prefix + rest, needle, k) && rest != "" && rest[0] == '('
    ensures Contains(prefix, MARK)
  {
    var s, m := prefix + rest, |prefix| - k;
    assert forall i | 0 < i < |MARK| :: needle[i] == MARK[i] && needle[i] != '(';
    if m < |MARK| {
      AtIndex(s, needle, k, m);
      assert false;
    }
    assert s[k..k + |needle|][..|MARK|] == needle[..|MARK|] && prefix[k..k + |MARK|] == s[k..k + |MARK|];
    assert At(prefix, MARK, k);
  }

  lemma {:induction false} SameUpToParenthesis(u: string, v: string)
    requires ')' !in u && ')' !in v && At(v + ")", u + ")", 0)
    ensures u == v
  {
    assert |u| < |v| ==> v[|u|] in v;
    AtIndex(v + ")", u + ")", 0, |u|);
    assert v == (v + ")")[..|v|] && u == (u + ")")[..|u|];
  }

  lemma {:induction false} OsErrorAtItsParenthesis(prefix: string, n: nat, code: nat, k: nat)
    requires !Contains(prefix, MARK) && At(prefix + OsError(n), OsError(code), k)
    ensures n == code
  {
    var s, needle, u, v := prefix + OsError(n), OsError(code), Render(code, 10), Render(n, 10);
    MarkStandsOnce(prefix, n, code, k);
    assert s[k..] == OsError(n) && s[k..][..|needle|] == needle;
    assert OsError(n)[10..] == v + ")" && needle[10..] == u + ")";
    assert OsError(n)[10..][..|u| + 1] == needle[10..];
    RenderHasDigits(n, ')');
    RenderHasDigits(code, ')');
    SameUpToParenthesis(u, v);
    RenderInjective(n, code, 10);
  }

  /** The pattern does not reach across or behind a parenthesis it lacks. */
  lemma {:induction false} EndsBefore(prefix: string, tail: string, kw: string, c: char, k: nat)
    requires '(' !in kw && c in kw && c !in tail && c != '('
    requires At(prefix + "(" + tail, kw, k)
    ensures k + |kw| <= |prefix|
  {
    var s, m := prefix + "(" + tail, |prefix| - k;
    var i :| 0 <= i < |kw| && kw[i] == c;
    assert forall j | |prefix| < j < |s| :: s[j] in tail;
    AtIndex(s, kw, k, i);
    assert k + i < |prefix| && s[k + m] == '(';
    if m < |kw| {
      AtIndex(s, kw, k, m);
    }
  }

  /** `kw` occurs in front of the error code or nowhere. */
  lemma {:induction false} KeywordInPrefix(prefix: string, tail: string, kw: string, c: char)
    requires '(' !in kw && c in kw && c !in tail && c != '('
    ensures Contains(prefix + "(" + tail, kw) ==> Contains(prefix, kw)
  {
    var s := prefix + "(" + tail;
    if Contains(s, kw) {
      var k := Find(s, kw, 0).value;
      EndsBefore(prefix, tail, kw, c, k);
      assert prefix[k..k + |kw|] == s[k..k + |kw|];
      assert At(prefix, kw, k);
    }
  }

  lemma {:induction false} ContainsPrefix(prefix: string, rest: string, kw: string)
    requires Contains(prefix, kw)
    ensures Contains(prefix + rest, kw)
  {
    var k := Find(prefix, kw, 0).value;
    assert (prefix + rest)[k..k + |kw|] == prefix[k..k + |kw|];
    assert At(prefix + rest, kw, k);
  }

  predicate NoKeyword(s: string) {
    && !Contains(s, MARK)
    && (forall text <- TRANSIENT_TEXTS :: !Contains(s, text))
  }

  /** A message that ends in its error code and has no keyword in front of it is transient exactly
      when the code is on the list; the codes on it are none of the unreachable ones. */
  lemma {:induction false} TransientByCode(prefix: string, n: nat)
    requires NoKeyword(prefix)
    ensures IsTransient(prefix + OsError(n)) <==> n in {11, 35, 54, 104, 10054}
    ensures IsTransient(prefix + OsError(n)) ==> n !in UNREACHABLE_CODES
  {
    TransientByList(prefix, n);
    CodesAre(n);
  }

  lemma {:induction false} CodesAre(n: nat)
    ensures n in TRANSIENT_CODES <==> n in {11, 35, 54, 104, 10054}
    ensures n in TRANSIENT_CODES ==> n !in UNREACHABLE_CODES
  {
  }

  lemma {:induction false} TransientByList(prefix: string, n: nat)
    requires NoKeyword(prefix)
    ensures IsTransient(prefix + OsError(n)) <==> n in TRANSIENT_CODES
  {
    var s := prefix + OsError(n);
    forall code: nat ensures HasOsError(s, code) <==> n == code {
      OsErrorIsExact(prefix, n, code);
    }
    forall text <- TRANSIENT_TEXTS ensures !Contains(s, text) {
      KeywordNotAcross(prefix, n, text, Witness(text));
    }
  }

  /** A letter of the keyword that no error code holds. */
  function Witness(text: string): (c: char)
    requires text in TRANSIENT_TEXTS
    ensures c in text && c !in "os error ()" && !IsDigit(c) && '(' !in text
  {
    text[0]
  }

  /** A message with one of these texts is transient, whatever else it says. */
  lemma {:induction false} TransientByText(message: string, text: string)
    requires text == "WouldBlock" || text == "Resource temporarily unavailable" || text == "EOF"
      || text == "line 1 column 0" || text == "Connection reset" || text == "Broken pipe"
    requires Contains(message, text)
    ensures IsTransient(message)
  {
    assert text in TRANSIENT_TEXTS;
  }

  lemma {:induction false} UnreachableByCode(prefix: string, n: nat)
    requires !Contains(prefix, MARK)
    ensures Unreachable(prefix + OsError(n)) <==> Contains(prefix, "Failed to connect") || n in {2, 61, 111, 10061}
  {
    forall code: nat ensures HasOsError(prefix + OsError(n), code) <==> n == code {
      OsErrorIsExact(prefix, n, code);
    }
    KeywordNotAcross(prefix, n, CONNECT_FAILED, 'F');
    if Contains(prefix, CONNECT_FAILED) {
      ContainsPrefix(prefix, OsError(n), CONNECT_FAILED);
    }
  }

  lemma {:induction false} KeywordNotAcross(prefix: string, n: nat, kw: string, c: char)
    requires '(' !in kw && c in kw && c !in "os error ()" && !IsDigit(c)
    ensures Contains(prefix + OsError(n), kw) ==> Contains(prefix, kw)
  {
    RenderHasDigits(n, c);
    var tail := "os error " + Render(n, 10) + ")";
    assert prefix + OsError(n) == prefix + "(" + tail;
    KeywordInPrefix(prefix, tail, kw, c);
  }

  /** Whatever made `connect` fail, a daemon that could not be reached counts as unreachable. */
  lemma {:induction false} ConnectFailureIsUnreachable(cause: string)
    ensures Unreachable("Failed to connect: " + cause)
  {
    var s := "Failed to connect: " + cause;
    assert s[0..0 + |CONNECT_FAILED|] == CONNECT_FAILED;
    assert At(s, CONNECT_FAILED, 0);
  }

  /** When nothing listens, the round ends at its first connection and a new daemon is asked for. */
  lemma {:induction false} RefusalRespawnsAtOnce<W, C, R>(
    answer: (W, C) -> (W, Reply<R>), ensure: W -> (W, bool), w: W, cmd: C, prefix: string, n: nat)
    requires NoKeyword(prefix) && n in UNREACHABLE_CODES
    requires answer(w, cmd).1 == Error(prefix + OsError(n))
    ensures var server := ProgramServer(answer, ensure);
      var first := Round(server, w, cmd, MAX_RETRIES);
      first.used == 1 && first.reply == answer(w, cmd).1 && Respawns(server, first)
  {
    TransientByCode(prefix, n);
    UnreachableByCode(prefix, n);
    SettledAtOnce(ProgramServer(answer, ensure), w, cmd, MAX_RETRIES);
  }

  lemma {:induction false} SettledAtOnce<W, C, R>(server: Server<W, C, R>, w: W, cmd: C, left: nat)
    requires left > 0 && !Retries(server, server.answer(w, cmd).1)
    ensures Round(server, w, cmd, left) == Outcome(server.answer(w, cmd).0, server.answer(w, cmd).1, 1)
  {
  }
}
