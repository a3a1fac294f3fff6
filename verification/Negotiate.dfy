/**
 The negotiate sequence: redirects, token refresh after `401 Unauthorized` and tokens issued by
 the server, for every behaviour of the server and of the token factory.
 */
module Negotiate {
  import opened Basics

  const MAX_NEGOTIATE_REDIRECTS := 100

  type Url = string
  type Token = string

  datatype Response = Response(url: Option<Url>, accessToken: Option<Token>, error: Option<string>, stateful: bool)

  datatype Reply = Unauthorized | Broken | Answered(response: Response)

  datatype Failure = NotAuthorized | RequestFailed | FactoryFailed | ServerError | StatefulMismatch | TooManyRedirects

  /** The caller's token: fixed, or made anew on each call of a factory, which may fail. */
  datatype Source = Fixed(token: Option<Token>) | Factory(make: nat -> Option<Token>)

  /** The answer to the n-th request for a url with a token. */
  type Server = (nat, Url, Option<Token>) -> Reply

  /** One request, the factory calls made before it, and its answer. */
  datatype Exchange = Exchange(url: Url, token: Option<Token>, calls: nat, reply: Reply)

  datatype Outcome =
    | Connected(response: Response, token: Option<Token>, url: Url, tokenFromServer: bool)
    | Refused(failure: Failure)

  // ---- what a log of exchanges means --------------------------------------------------------

  /** The last redirect, or where it all began. */
  function CurrentUrl(hub: Url, log: seq<Exchange>): Url
  {
    if log == [] then hub
    else
      var last := log[|log| - 1].reply;
      if last.Answered? && last.response.url.Some? then last.response.url.value
      else CurrentUrl(hub, log[..|log| - 1])
  }

  /** The last token the server issued. */
  function ServerToken(log: seq<Exchange>): Option<Token>
  {
    if log == [] then None
    else
      var last := log[|log| - 1].reply;
      if last.Answered? && last.response.accessToken.Some? then last.response.accessToken
      else ServerToken(log[..|log| - 1])
  }

  function Refusals(log: seq<Exchange>): nat
  {
    if log == [] then 0
    else Refusals(log[..|log| - 1]) + if log[|log| - 1].reply.Unauthorized? then 1 else 0
  }

  function Rounds(log: seq<Exchange>): nat
  {
    if log == [] then 0
    else Rounds(log[..|log| - 1]) + if log[|log| - 1].reply.Answered? then 1 else 0
  }

  /** An empty token counts as none. */
  function Resolved(token: Token): Option<Token>
  {
    if token == "" then None else Some(token)
  }

  /** The caller's own token after so many factory calls. */
  function OwnToken(source: Source, calls: nat): Option<Token>
  {
    match source
    case Fixed(token) => token
    case Factory(make) => if calls > 0 && make(calls - 1).Some? then Resolved(make(calls - 1).value) else None
  }

  /** The token of the next request: the server's, once it issued one. */
  function CurrentToken(source: Source, log: seq<Exchange>, calls: nat): Option<Token>
  {
    if ServerToken(log).Some? then ServerToken(log) else OwnToken(source, calls)
  }

  /** Factory calls made before the next request: one to begin with, and one for every `401`. */
  function CallsBefore(source: Source, log: seq<Exchange>): nat
  {
    if source.Fixed? then 0 else 1 + Refusals(log)
  }

  /** The last factory call gave a token. */
  predicate Made(source: Source, calls: nat)
  {
    source.Factory? ==> calls > 0 && source.make(calls - 1).Some?
  }

  /** A request that follows from the exchanges before it. */
  ghost predicate Follows(hub: Url, source: Source, server: Server, before: seq<Exchange>, x: Exchange)
  {
    && x.url == CurrentUrl(hub, before)
    && x.calls == CallsBefore(source, before)
    && x.token == CurrentToken(source, before, x.calls)
    && Made(source, x.calls)
    && x.reply == server(|before|, x.url, x.token)
    && (before != [] ==> MayFollow(source, before))
  }

  /** After an answer there is another request only if it redirects and is in order; after a
      `401` only if a factory can make a new token, and it is the first one in a row. */
  predicate MayFollow(source: Source, before: seq<Exchange>)
    requires before != []
  {
    var n := |before|;
    match before[n - 1].reply
    case Unauthorized =>
      && source.Factory? && ServerToken(before).None?
      && (n >= 2 ==> !before[n - 2].reply.Unauthorized?)
    case Broken => false
    case Answered(response) => response.url.Some? && response.error.None?
  }

  ghost predicate Legal(hub: Url, source: Source, server: Server, log: seq<Exchange>)
  {
    forall i | 0 <= i < |log| :: Follows(hub, source, server, log[..i], log[i])
  }

  lemma Extend(hub: Url, source: Source, server: Server, log: seq<Exchange>, x: Exchange)
    requires Legal(hub, source, server, log) && Follows(hub, source, server, log, x)
    ensures Legal(hub, source, server, log + [x])
    ensures CurrentUrl(hub, log + [x])
            == if x.reply.Answered? && x.reply.response.url.Some? then x.reply.response.url.value
               else CurrentUrl(hub, log)
    ensures ServerToken(log + [x])
            == if x.reply.Answered? && x.reply.response.accessToken.Some? then x.reply.response.accessToken
               else ServerToken(log)
    ensures Refusals(log + [x]) == Refusals(log) + if x.reply.Unauthorized? then 1 else 0
    ensures Rounds(log + [x]) == Rounds(log) + if x.reply.Answered? then 1 else 0
  {
    hide Follows;
    var all := log + [x];
    assert all[..|log|] == log;
    forall i | 0 <= i < |all| ensures Follows(hub, source, server, all[..i], all[i]) {
      if i < |log| {
        assert all[..i] == log[..i] && all[i] == log[i];
      }
    }
  }

  /** What holds at the head of the loop, with the loop's variables. */
  ghost predicate LoopInv(hub: Url, source: Source, server: Server, log: seq<Exchange>,
                          url: Url, token: Option<Token>, mine: bool, calls: nat, redirects: nat, fromServer: bool)
  {
    && Legal(hub, source, server, log)
    && url == CurrentUrl(hub, log) && calls == CallsBefore(source, log) && token == CurrentToken(source, log, calls)
    && mine == (source.Factory? && ServerToken(log).None?) && fromServer == ServerToken(log).Some?
    && Made(source, calls)
    && redirects == Rounds(log) && |log| <= 2 * redirects <= 2 * MAX_NEGOTIATE_REDIRECTS
    && (log != [] ==> log[|log| - 1].reply.Answered? && MayFollow(source, log))
  }

  /** The last answer accounts for the failure. */
  predicate Explains(failure: Failure, last: Reply, stateful: bool)
  {
    match failure
    case NotAuthorized => last.Unauthorized?
    case FactoryFailed => last.Unauthorized?
    case RequestFailed => last.Broken?
    case ServerError => last.Answered? && last.response.error.Some?
    case StatefulMismatch => last.Answered? && last.response.error.None? && last.response.stateful && !stateful
    case TooManyRedirects => last.Answered? && last.response.error.None? && last.response.url.Some?
  }

  /** No request is left out: the log ends where none may follow, unless the factory fails to make the
      token for it, the redirects are used up, or the server's answer is out of order. */
  predicate Ends(outcome: Outcome, source: Source, log: seq<Exchange>, calls: nat)
    requires log != []
  {
    match outcome
    case Refused(FactoryFailed) => MayFollow(source, log) && calls == log[|log| - 1].calls + 1
    case Refused(TooManyRedirects) => MayFollow(source, log)
    case Refused(StatefulMismatch) => true
    case _ => !MayFollow(source, log)
  }

  /** Every run: the log is legal, so each request is determined by the answers before it; the
      loop ends within 101 rounds and 202 requests; and a connection comes with the last redirect,
      the last server token or else the caller's own, and a flag that tells the two apart. */
  method NegotiateWithSource(hub: Url, stateful: bool, source: Source, server: Server)
    returns (outcome: Outcome, log: seq<Exchange>, calls: nat)
    ensures Legal(hub, source, server, log)
    ensures Rounds(log) <= 101 && |log| <= 202
    ensures log != [] ==> log[|log| - 1].calls <= calls <= CallsBefore(source, log)
    ensures ServerToken(log).Some? ==> calls == log[|log| - 1].calls
    ensures outcome.Connected? ==>
              && log != [] && log[|log| - 1].reply == Answered(outcome.response)
              && outcome.response.url.None? && outcome.response.error.None?
              && (outcome.response.stateful ==> stateful)
              && outcome.url == CurrentUrl(hub, log) == log[|log| - 1].url
              && outcome.tokenFromServer == ServerToken(log).Some?
              && outcome.token == CurrentToken(source, log, calls)
    ensures outcome == Refused(TooManyRedirects) ==> Rounds(log) == 101
    ensures log == [] ==> outcome == Refused(FactoryFailed) && calls == 1
    ensures outcome.Refused? && log != [] ==> Explains(outcome.failure, log[|log| - 1].reply, stateful)
    ensures outcome == Refused(FactoryFailed) ==> source.Factory? && calls > 0 && source.make(calls - 1).None?
    ensures log != [] ==> Ends(outcome, source, log, calls)
    ensures outcome == Refused(NotAuthorized) && source.Factory? && ServerToken(log).None? ==>
              |log| >= 2 && log[|log| - 2].reply.Unauthorized?
  {
    hide Legal, LoopInv, CurrentUrl, ServerToken, Refusals, Rounds, OwnToken;
    NothingYet(hub, source, server);
    log, calls := [], 0;
    var token: Option<Token> := None;
    if source.Factory? {
      calls := 1;
      if source.make(0).None? {
        return Refused(FactoryFailed), log, calls;
      }
      token := Resolved(source.make(0).value);
    } else {
      token := source.token;
    }
    var currentUrl, redirects, tokenFromServer := hub, 0, false;
    var refreshable := source.Factory?;
    while true
      invariant LoopInv(hub, source, server, log, currentUrl, token, refreshable, calls, redirects, tokenFromServer)
      decreases MAX_NEGOTIATE_REDIRECTS - redirects
    {
      ghost var before := log;
      FirstRequest(hub, source, server, log, currentUrl, token, refreshable, calls, redirects, tokenFromServer);
      var reply: Result<Response, Failure>;
      reply, log, token, calls := Ask(hub, source, server, log, currentUrl, token, refreshable, calls,
                                      redirects, tokenFromServer);
      if reply.Err? {
        return Refused(reply.error), log, calls;
      }
      var response := reply.value;
      if response.error.Some? {
        return Refused(ServerError), log, calls;
      }
      if response.stateful && !stateful {
        return Refused(StatefulMismatch), log, calls;
      }
      if response.accessToken.Some? {
        token, refreshable := response.accessToken, false;
        tokenFromServer := true;
      }
      if response.url.None? {
        return Connected(response, token, currentUrl, tokenFromServer), log, calls;
      }
      if redirects >= MAX_NEGOTIATE_REDIRECTS {
        return Refused(TooManyRedirects), log, calls;
      }
      currentUrl := response.url.value;
      redirects := redirects + 1;
      NextRound(hub, source, server, log, currentUrl, token, refreshable, calls, redirects, tokenFromServer);
    }
  }

  /** One round: a request, and after a `401` one more with a new token if there can be one. */
  method Ask(hub: Url, source: Source, server: Server, before: seq<Exchange>, url: Url, current: Option<Token>,
             refreshable: bool, callsBefore: nat, ghost redirects: nat, ghost fromServer: bool)
    returns (reply: Result<Response, Failure>, log: seq<Exchange>, token: Option<Token>, calls: nat)
    requires LoopInv(hub, source, server, before, url, current, refreshable, callsBefore, redirects, fromServer)
    ensures Legal(hub, source, server, log) && log != []
    ensures |log| <= |before| + 2
    ensures log[|log| - 1].calls <= calls <= CallsBefore(source, log)
    ensures reply.Err? ==>
              && !log[|log| - 1].reply.Answered? && Rounds(log) == Rounds(before)
              && ServerToken(log) == ServerToken(before) && (ServerToken(log).Some? ==> calls == log[|log| - 1].calls)
              && (reply.error == FactoryFailed ==> source.Factory? && calls > 0 && source.make(calls - 1).None?)
              && Explains(reply.error, log[|log| - 1].reply, true)
              && (reply.error == NotAuthorized || reply.error == FactoryFailed || reply.error == RequestFailed)
              && Ends(Refused(reply.error), source, log, calls)
              && (reply.error == NotAuthorized && source.Factory? && ServerToken(log).None? ==>
                    |log| >= 2 && log[|log| - 2].reply.Unauthorized?)
    ensures reply.Ok? ==>
              && log[|log| - 1].reply == Answered(reply.value) && Rounds(log) == Rounds(before) + 1
              && calls == log[|log| - 1].calls == CallsBefore(source, log) && Made(source, calls)
              && (reply.value.url.None? ==> url == CurrentUrl(hub, log) == log[|log| - 1].url)
              && (reply.value.url.Some? ==> reply.value.url.value == CurrentUrl(hub, log))
              && ServerToken(log)
                 == (if reply.value.accessToken.Some? then reply.value.accessToken else ServerToken(before))
              && (reply.value.accessToken.None? ==> token == CurrentToken(source, log, calls))
  {
    hide Legal, LoopInv, CurrentUrl, ServerToken, Refusals, Rounds;
    FirstRequest(hub, source, server, before, url, current, refreshable, callsBefore, redirects, fromServer);
    token, calls := current, callsBefore;
    var answer := server(|before|, url, token);
    var x := Exchange(url, token, calls, answer);
    Extend(hub, source, server, before, x);
    log := before + [x];
    if answer.Unauthorized? && refreshable {
      calls := calls + 1;
      if source.make(calls - 1).None? {
        return Err(FactoryFailed), log, token, calls;
      }
      token := Resolved(source.make(calls - 1).value);
      answer := server(|log|, url, token);
      x := Exchange(url, token, calls, answer);
      Extend(hub, source, server, log, x);
      log := log + [x];
    }
    match answer {
      case Unauthorized => reply := Err(NotAuthorized);
      case Broken => reply := Err(RequestFailed);
      case Answered(response) => reply := Ok(response);
    }
  }

  lemma NothingYet(hub: Url, source: Source, server: Server)
    ensures Legal(hub, source, server, []) && Rounds([]) == 0 && ServerToken([]).None?
    ensures source.Fixed? ==> LoopInv(hub, source, server, [], hub, source.token, false, 0, 0, false)
    ensures source.Factory? && source.make(0).Some? ==>
              LoopInv(hub, source, server, [], hub, Resolved(source.make(0).value), true, 1, 0, false)
  {
  }

  lemma FirstRequest(hub: Url, source: Source, server: Server, log: seq<Exchange>,
                     url: Url, token: Option<Token>, mine: bool, calls: nat, redirects: nat, fromServer: bool)
    requires LoopInv(hub, source, server, log, url, token, mine, calls, redirects, fromServer)
    ensures Legal(hub, source, server, log)
    ensures Follows(hub, source, server, log, Exchange(url, token, calls, server(|log|, url, token)))
    ensures calls == CallsBefore(source, log) && mine == (source.Factory? && ServerToken(log).None?)
    ensures token == CurrentToken(source, log, calls) && fromServer == ServerToken(log).Some? && Made(source, calls)
    ensures url == CurrentUrl(hub, log) && redirects == Rounds(log) && |log| <= 2 * redirects <= 200
    ensures log != [] ==> log[|log| - 1].reply.Answered?
  {
  }

  lemma NextRound(hub: Url, source: Source, server: Server, log: seq<Exchange>,
                  url: Url, token: Option<Token>, mine: bool, calls: nat, redirects: nat, fromServer: bool)
    requires Legal(hub, source, server, log) && log != []
    requires url == CurrentUrl(hub, log) && calls == CallsBefore(source, log)
    requires token == CurrentToken(source, log, calls) && Made(source, calls)
    requires mine == (source.Factory? && ServerToken(log).None?) && fromServer == ServerToken(log).Some?
    requires redirects == Rounds(log) && |log| <= 2 * redirects <= 200
    requires log[|log| - 1].reply.Answered? && MayFollow(source, log)
    ensures LoopInv(hub, source, server, log, url, token, mine, calls, redirects, fromServer)
  {
  }

  // ---- what a legal log implies -------------------------------------------------------------

  predicate IssuesToken(x: Exchange)
  {
    x.reply.Answered? && x.reply.response.accessToken.Some?
  }

  lemma {:induction false} TokenKept(log: seq<Exchange>, i: nat, j: nat)
    requires i < j <= |log| && IssuesToken(log[i])
    ensures ServerToken(log[..j]).Some?
    decreases j
  {
    assert log[..j][..j - 1] == log[..j - 1] && log[..j][j - 1] == log[j - 1];
    if i < j - 1 {
      TokenKept(log, i, j - 1);
    }
  }

  lemma CallsKept(hub: Url, source: Source, server: Server, log: seq<Exchange>, j: nat)
    requires Legal(hub, source, server, log) && 0 < j < |log| && ServerToken(log[..j]).Some?
    ensures log[j].calls == log[j - 1].calls
  {
    hide CurrentUrl, CurrentToken;
    var before := log[..j];
    assert Follows(hub, source, server, before, log[j]);
    assert Follows(hub, source, server, log[..j - 1], log[j - 1]);
    assert before[..j - 1] == log[..j - 1] && before[j - 1] == log[j - 1];
    hide Legal, ServerToken;
    assert MayFollow(source, before);
    assert !before[j - 1].reply.Unauthorized?;
  }

  /** Once an answer carries a token, every later request uses the latest token from the server,
      and the factory is not called any more. */
  lemma {:induction false} ServerTokenStays(hub: Url, source: Source, server: Server, log: seq<Exchange>,
                                            i: nat, j: nat)
    requires Legal(hub, source, server, log) && i < j < |log| && IssuesToken(log[i])
    ensures ServerToken(log[..j]).Some? && log[j].token == ServerToken(log[..j])
    ensures log[j].calls == log[i].calls
    decreases j
  {
    hide CurrentUrl, OwnToken, ServerToken, Refusals;
    TokenKept(log, i, j);
    assert Follows(hub, source, server, log[..j], log[j]);
    hide Follows;
    CallsKept(hub, source, server, log, j);
    if i < j - 1 {
      ServerTokenStays(hub, source, server, log, i, j - 1);
    }
  }

  /** There is a server token if and only if some answer carried one, and it is the one of the last such
      answer. */
  lemma {:induction false} IssuedTokenIsLatest(log: seq<Exchange>)
    ensures ServerToken(log).Some? <==> exists i :: 0 <= i < |log| && IssuesToken(log[i])
    ensures forall i | 0 <= i < |log| && IssuesToken(log[i]) && (forall j | i < j < |log| :: !IssuesToken(log[j])) ::
              ServerToken(log) == log[i].reply.response.accessToken
  {
    if log != [] {
      var shorter := log[..|log| - 1];
      IssuedTokenIsLatest(shorter);
      if ServerToken(shorter).Some? {
        var i :| 0 <= i < |shorter| && IssuesToken(shorter[i]);
        assert IssuesToken(log[i]);
      } else if IssuesToken(log[|log| - 1]) {
        assert IssuesToken(log[|log| - 1]);
      }
      assert forall i | 0 <= i < |shorter| :: log[i] == shorter[i];
    }
  }

  /** The first request goes to the hub; every other one to where the answer before it redirects, and
      after a `401` to the same place again. */
  lemma RequestUrl(hub: Url, source: Source, server: Server, log: seq<Exchange>, i: nat)
    requires Legal(hub, source, server, log) && i < |log|
    ensures i == 0 ==> log[i].url == hub
    ensures i > 0 && log[i - 1].reply.Unauthorized? ==> log[i].url == log[i - 1].url
    ensures i > 0 && !log[i - 1].reply.Unauthorized? ==>
              log[i - 1].reply.Answered? && log[i - 1].reply.response.url == Some(log[i].url)
  {
    assert Follows(hub, source, server, log[..i], log[i]);
    if i > 0 {
      assert Follows(hub, source, server, log[..i - 1], log[i - 1]);
      assert log[..i][..i - 1] == log[..i - 1] && log[..i][i - 1] == log[i - 1];
    }
  }

  /** Before the server has issued a token, a request carries the fixed one, or what the last call of the
      factory gave, where the empty string means none. */
  lemma RequestToken(hub: Url, source: Source, server: Server, log: seq<Exchange>, i: nat)
    requires Legal(hub, source, server, log) && i < |log| && ServerToken(log[..i]).None?
    ensures source.Fixed? ==> log[i].token == source.token && log[i].calls == 0
    ensures source.Factory? ==>
              && log[i].calls > 0 && source.make(log[i].calls - 1).Some?
              && (source.make(log[i].calls - 1).value == "" ==> log[i].token.None?)
              && (source.make(log[i].calls - 1).value != "" ==> log[i].token == source.make(log[i].calls - 1))
  {
    hide CurrentUrl, ServerToken, Refusals;
    assert Follows(hub, source, server, log[..i], log[i]);
  }

  /** A `401` is followed by another request only where a factory can make a new token, the
      server has issued none, and it is the first `401` in a row. */
  lemma UnauthorizedOnce(hub: Url, source: Source, server: Server, log: seq<Exchange>, i: nat)
    requires Legal(hub, source, server, log) && i < |log| - 1 && log[i].reply.Unauthorized?
    ensures source.Factory? && ServerToken(log[..i]).None? && (i > 0 ==> !log[i - 1].reply.Unauthorized?)
    ensures log[i + 1].url == log[i].url && log[i + 1].calls == log[i].calls + 1
  {
    assert Follows(hub, source, server, log[..i + 1], log[i + 1]);
    assert Follows(hub, source, server, log[..i], log[i]);
    assert log[..i + 1][..i] == log[..i];
    assert log[..i + 1][i] == log[i] && (i > 0 ==> log[..i + 1][i - 1] == log[i - 1]);
  }
}
