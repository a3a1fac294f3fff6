/** Text message framing with a record separator. */
module TextFraming {
  import opened Basics

  const RECORD_SEPARATOR: char := '\U{1e}'

  function Write(output: string): string
  {
    output + [RECORD_SEPARATOR]
  }

  /** The pieces between separators, one more than there are separators. */
  function Split(s: string): (parts: seq<string>)
    ensures |parts| >= 1
  {
    if s == [] then [[]]
    else
      var rest := Split(s[1..]);
      if s[0] == RECORD_SEPARATOR then [[]] + rest
      else [[s[0]] + rest[0]] + rest[1..]
  }

  function NonEmpty(parts: seq<string>): seq<string>
  {
    if parts == [] then []
    else (if parts[0] == [] then [] else [parts[0]]) + NonEmpty(parts[1..])
  }

  function Parse(input: string): Result<seq<string>, FramingError>
  {
    if input == [] || input[|input| - 1] != RECORD_SEPARATOR then Err(IncompleteMessage)
    else Ok(NonEmpty(Split(input)))
  }

  function Written(messages: seq<string>): seq<string>
  {
    if messages == [] then [] else [Write(messages[0])] + Written(messages[1..])
  }

  /** A message the framing can carry. */
  predicate Framable(message: string)
  {
    message != [] && '\U{1e}' !in message
  }

  lemma {:induction false} NonEmptyAppend(a: seq<string>, b: seq<string>)
    ensures NonEmpty(a + b) == NonEmpty(a) + NonEmpty(b)
  {
    if a == [] {
      assert a + b == b;
    } else {
      assert (a + b)[1..] == a[1..] + b;
      NonEmptyAppend(a[1..], b);
    }
  }

  lemma NonEmptyNothing()
    ensures NonEmpty([[]]) == []
  {
    var none: seq<string> := [[]][1..];
    assert none == [] && NonEmpty(none) == [];
  }

  lemma SplitStep(s: string)
    ensures Split([]) == [[]]
    ensures s != [] ==>
              var rest := Split(s[1..]);
              Split(s) == if s[0] == RECORD_SEPARATOR then [[]] + rest else [[s[0]] + rest[0]] + rest[1..]
  {
  }

  /** Splitting after a separator splits the two sides on their own. */
  lemma {:induction false} SplitAt(a: string, b: string)
    ensures Split(a + [RECORD_SEPARATOR] + b) == Split(a) + Split(b)
  {
    hide Split;
    var s := a + [RECORD_SEPARATOR] + b;
    SplitStep(s);
    if a == [] {
      assert s[1..] == b;
    } else {
      SplitAt(a[1..], b);
      SplitStep(a);
      var rest, tail := Split(a[1..]), Split(b);
      assert s[0] == a[0] && s[1..] == a[1..] + [RECORD_SEPARATOR] + b;
      SplitJoin([a[0]], rest, tail);
    }
  }

  lemma SplitJoin(head: string, rest: seq<string>, tail: seq<string>)
    requires rest != []
    ensures [[]] + (rest + tail) == ([[]] + rest) + tail
    ensures [head + (rest + tail)[0]] + (rest + tail)[1..] == ([head + rest[0]] + rest[1..]) + tail
  {
    assert (rest + tail)[1..] == rest[1..] + tail;
  }

  lemma {:induction false} SplitWhole(a: string)
    requires RECORD_SEPARATOR !in a
    ensures Split(a) == [a]
  {
    if a != [] {
      assert forall c | c in a[1..] :: c in a;
      SplitWhole(a[1..]);
      assert a[0] in a && [a[0]] + a[1..] == a;
    }
  }

  /** Every part is free of separators. */
  lemma {:induction false} PartsAreClean(s: string)
    ensures forall p | p in Split(s) :: RECORD_SEPARATOR !in p
  {
    if s != [] {
      PartsAreClean(s[1..]);
      var rest := Split(s[1..]);
      assert rest[0] in rest;
    }
  }

  lemma {:induction false} NonEmptyParts(parts: seq<string>)
    ensures forall p | p in NonEmpty(parts) :: p != [] && p in parts
  {
    if parts != [] {
      NonEmptyParts(parts[1..]);
    }
  }

  /** Parsing is compositional over complete inputs. */
  lemma ParseConcatenation(a: string, b: string)
    requires Parse(a).Ok? && Parse(b).Ok?
    ensures Parse(a + b) == Ok(Parse(a).value + Parse(b).value)
  {
    hide Split, NonEmpty;
    var body := a[..|a| - 1];
    SplitStep([]);
    NonEmptyNothing();
    assert a == body + [RECORD_SEPARATOR] + [];
    assert a + b == body + [RECORD_SEPARATOR] + b;
    SplitAt(body, []);
    SplitAt(body, b);
    NonEmptyAppend(Split(body), [[]]);
    NonEmptyAppend(Split(body), Split(b));
    assert Parse(a).value == NonEmpty(Split(body)) + [] == NonEmpty(Split(body));
    assert (a + b)[|a + b| - 1] == b[|b| - 1];
  }

  lemma ParseOne(message: string)
    requires Framable(message)
    ensures Parse(Write(message)) == Ok([message])
  {
    assert Write(message) == message + [RECORD_SEPARATOR] + [];
    SplitAt(message, []);
    SplitWhole(message);
    NonEmptyAppend([message], [[]]);
    assert NonEmpty([message]) == [message] + NonEmpty([message][1..]);
    assert NonEmpty([[]]) == NonEmpty([[]][1..]);
  }

  lemma {:induction false} WrittenParses(messages: seq<string>)
    requires messages != []
    requires forall m | m in messages :: Framable(m)
    ensures Parse(Concat(Written(messages))) == Ok(messages)
  {
    ParseOne(messages[0]);
    assert Written(messages)[1..] == Written(messages[1..]);
    if |messages| > 1 {
      WrittenParses(messages[1..]);
      ParseConcatenation(Write(messages[0]), Concat(Written(messages[1..])));
      assert [messages[0]] + messages[1..] == messages;
    } else {
      assert messages[1..] == [] && messages == [messages[0]];
      assert Concat(Written(messages[1..])) == [];
      assert Concat(Written(messages)) == Write(messages[0]);
    }
  }

  /** A list of messages comes back from its concatenated frames if and only if it is not empty
      and every message is non-empty and free of separators. */
  lemma RoundTripExactly(messages: seq<string>)
    ensures Parse(Concat(Written(messages))) == Ok(messages)
            <==> messages != [] && forall m | m in messages :: Framable(m)
  {
    var input := Concat(Written(messages));
    if messages != [] && forall m | m in messages :: Framable(m) {
      WrittenParses(messages);
    } else if Parse(input) == Ok(messages) {
      PartsAreClean(input);
      NonEmptyParts(Split(input));
    }
  }
}
