/** The quote API (api/quotes.py): choosing a topic, asking the text-generation
    collaborator for a quote about it, and reading the `Quote:` / `Author:`
    lines out of the reply. */
module Quotes {
  import opened Common
  import opened Text

  /** The topics drawn from when the caller gives none. */
  const QuoteTypes: seq<string> := [
    "happiness", "love", "selfconfidence", "success", "inspirational",
    "wisdom", "courage", "life", "knowledge", "motivation"
  ]

  const DefaultQuote: string := "Quote not found in Gemini response."
  const DefaultAuthor: string := "Author not found in Gemini response."
  const NoClientQuote: string := "Failed to generate quote: Gemini client not available."
  const UnexpectedQuote: string := "An unexpected error occurred while generating an AI quote."
  const SystemAuthor: string := "System"

  const QuoteKey: string := "quote:"
  const AuthorKey: string := "author:"

  /** Every result of the quote API has exactly the keys `quote`, `author`
      and `type`. */
  datatype QuoteResult = QuoteResult(quote: string, author: string, quoteType: string)

  /** The quote reported when the collaborator raised its own error. */
  function ErrorQuote(topic: string): string {
    "An error occurred while generating an AI quote on '" + topic + "'."
  }

  /** The error quote names the topic it was about. */
  lemma ErrorQuoteNamesTopic(topic: string)
    ensures Contains(ErrorQuote(topic), topic)
  {
    var pre := "An error occurred while generating an AI quote on '";
    assert ErrorQuote(topic)[|pre|..|pre| + |topic|] == topic;
    assert OccursAt(ErrorQuote(topic), topic, |pre|);
  }

  /** The lines the parser looks at: only the whole reply is stripped (:102). */
  function ReplyLines(text: string): seq<string> {
    Split(Strip(text), '\n')
  }

  /** `line.lower().startswith(key)`: the test is made on the unstripped line. */
  predicate IsKeyLine(line: string, key: string) {
    StartsWith(Lower(line), key)
  }

  /** `line[len(key):].strip()` */
  function KeyValue(line: string, key: string): string
    requires |key| <= |line|
  {
    Strip(line[|key|..])
  }

  /** The index of the last line that carries `key`, if any line does. */
  function LastKeyLine(lines: seq<string>, key: string): (r: Option<nat>)
    ensures r.Some? ==> r.value < |lines| && IsKeyLine(lines[r.value], key)
    ensures r.Some? ==> forall j :: r.value < j < |lines| ==> !IsKeyLine(lines[j], key)
    ensures r.None? <==> forall i :: 0 <= i < |lines| ==> !IsKeyLine(lines[i], key)
  {
    if lines == [] then None
    else if IsKeyLine(lines[|lines| - 1], key) then Some(|lines| - 1)
    else LastKeyLine(lines[..|lines| - 1], key)
  }

  /** The value on the last line that carries `key`: later lines override
      earlier ones. */
  function LastValue(lines: seq<string>, key: string): Option<string> {
    match LastKeyLine(lines, key)
    case None => None
    case Some(i) => Some(KeyValue(lines[i], key))
  }

  /** Reading one more line: it decides the value if it carries the key. */
  lemma LastValueStep(lines: seq<string>, i: nat, key: string)
    requires i < |lines|
    ensures LastValue(lines[..i + 1], key)
            == if IsKeyLine(lines[i], key) then Some(KeyValue(lines[i], key)) else LastValue(lines[..i], key)
  {
    assert lines[..i + 1][..i] == lines[..i];
  }

  /** No line carries both keys. */
  lemma KeysExclusive(line: string)
    ensures !(IsKeyLine(line, QuoteKey) && IsKeyLine(line, AuthorKey))
  {
    if IsKeyLine(line, QuoteKey) {
      assert Lower(line)[0] == 'q';
    }
  }

  /** The parsing loop of `generate_quote_with_gemini` (:98-108): every line
      that starts with `quote:` (any case) sets the quote, every line that
      starts with `author:` sets the author; otherwise the defaults stay. */
  method ParseReply(text: string) returns (quote: string, author: string)
    ensures quote == GetOr(LastValue(ReplyLines(text), QuoteKey), DefaultQuote)
    ensures author == GetOr(LastValue(ReplyLines(text), AuthorKey), DefaultAuthor)
  {
    quote := DefaultQuote;
    author := DefaultAuthor;
    var lines := ReplyLines(text);
    for i := 0 to |lines|
      invariant quote == GetOr(LastValue(lines[..i], QuoteKey), DefaultQuote)
      invariant author == GetOr(LastValue(lines[..i], AuthorKey), DefaultAuthor)
    {
      LastValueStep(lines, i, QuoteKey);
      LastValueStep(lines, i, AuthorKey);
      KeysExclusive(lines[i]);
      if IsKeyLine(lines[i], QuoteKey) {
        quote := KeyValue(lines[i], QuoteKey);
      } else if IsKeyLine(lines[i], AuthorKey) {
        author := KeyValue(lines[i], AuthorKey);
      }
    }
    assert lines[..|lines|] == lines;
  }

  /** A line indented by whitespace is never recognised as a key line. */
  lemma IndentedLineIgnored(line: string)
    requires line != [] && IsSpace(line[0])
    ensures !IsKeyLine(line, QuoteKey) && !IsKeyLine(line, AuthorKey)
  {
    assert Lower(line)[0] == line[0];
  }

  /** Removing one leading space does not change what `strip` returns. */
  lemma StripAfterSpace(s: string)
    ensures Strip(" " + s) == Strip(s)
  {
    assert (" " + s)[1..] == s;
  }

  /** A text free of line breaks stays free of them behind a prefix free of them. */
  lemma NoBreakAfter(prefix: string, s: string)
    requires '\n' !in prefix && '\n' !in s
    ensures '\n' !in prefix + s
  {
    assert forall k :: 0 <= k < |prefix + s| ==> (prefix + s)[k] in prefix || (prefix + s)[k] in s;
  }

  /** A line made of a key, written in any case, and a rest carries the key,
      and its value is the stripped rest. */
  lemma KeyLineOf(prefix: string, rest: string, key: string)
    requires Lower(prefix) == key
    ensures IsKeyLine(prefix + rest, key)
    ensures KeyValue(prefix + rest, key) == Strip(rest)
  {
    assert (prefix + rest)[|key|..] == rest;
    assert Lower(prefix + rest)[..|key|] == Lower(prefix);
  }

  lemma LowerKeys()
    ensures Lower("Quote:") == QuoteKey && Lower("Author:") == AuthorKey
  {
  }

  /** `Quote: q` carries the quote key with value `q`, stripped. */
  lemma QuoteLine(q: string)
    ensures IsKeyLine("Quote: " + q, QuoteKey) && KeyValue("Quote: " + q, QuoteKey) == Strip(q)
  {
    LowerKeys();
    assert "Quote: " + q == "Quote:" + (" " + q);
    KeyLineOf("Quote:", " " + q, QuoteKey);
    StripAfterSpace(q);
  }

  /** `Author: a` carries the author key with value `a`, stripped, and does
      not carry the quote key. */
  lemma AuthorLine(a: string)
    ensures IsKeyLine("Author: " + a, AuthorKey) && KeyValue("Author: " + a, AuthorKey) == Strip(a)
    ensures !IsKeyLine("Author: " + a, QuoteKey)
  {
    LowerKeys();
    assert "Author: " + a == "Author:" + (" " + a);
    KeyLineOf("Author:", " " + a, AuthorKey);
    StripAfterSpace(a);
    KeysExclusive("Author: " + a);
  }

  /** Of two lines, the first carries the key and the second does not. */
  lemma FirstOfTwo(l1: string, l2: string, key: string)
    requires IsKeyLine(l1, key) && !IsKeyLine(l2, key)
    ensures LastValue([l1, l2], key) == Some(KeyValue(l1, key))
  {
    var lines := [l1, l2];
    assert IsKeyLine(lines[0], key) && !IsKeyLine(lines[1], key);
    assert LastKeyLine(lines, key) == Some(0);
  }

  /** Of two lines, the second carries the key. */
  lemma LastOfTwo(l1: string, l2: string, key: string)
    requires IsKeyLine(l2, key)
    ensures LastValue([l1, l2], key) == Some(KeyValue(l2, key))
  {
    var lines := [l1, l2];
    assert IsKeyLine(lines[1], key);
  }

  /** Stripping a text that opens with a head trimmed at both ends removes
      only what trails the rest. */
  lemma StripAfterHead(head: string, rest: string)
    requires head != [] && !IsSpace(head[0]) && !IsSpace(head[|head| - 1])
    ensures Strip(head + rest) == head + TrimEnd(rest)
  {
    assert (head + rest)[0] == head[0];
    assert TrimStart(head + rest) == head + rest;
    TrimEndAfter(head, rest);
  }

  /** The same for a first line and a key that opens the second line. */
  lemma StripKeyLine(l1: string, key: string, rest: string)
    requires l1 != [] && !IsSpace(l1[0]) && key != [] && !IsSpace(key[|key| - 1])
    ensures Strip(l1 + "\n" + key + rest) == l1 + "\n" + (key + TrimEnd(rest))
  {
    var head := l1 + "\n" + key;
    assert head[0] == l1[0] && head[|head| - 1] == key[|key| - 1];
    StripAfterHead(head, rest);
    Regroup(l1 + "\n", key, TrimEnd(rest));
  }

  lemma Regroup<T>(x: seq<T>, y: seq<T>, z: seq<T>)
    ensures x + y + z == x + (y + z)
  {
  }

  /** Stripping a reply in the prompt's format removes only what trails the
      author. */
  lemma StripFormatted(q: string, a: string)
    ensures Strip("Quote: " + q + "\nAuthor: " + a)
            == ("Quote: " + q) + "\n" + ("Author:" + TrimEnd(" " + a))
  {
    var l1 := "Quote: " + q;
    assert l1[0] == 'Q';
    assert "Quote: " + q + "\nAuthor: " + a == l1 + "\n" + "Author:" + (" " + a);
    StripKeyLine(l1, "Author:", " " + a);
  }

  /** What `rstrip` leaves of a text free of line breaks is free of them. */
  lemma NoBreakTrimmed(s: string)
    requires '\n' !in s
    ensures '\n' !in TrimEnd(s)
  {
    var t := TrimEnd(s);
    assert forall k :: 0 <= k < |t| ==> t[k] == s[k];
  }

  /** A reply written in the format the prompt asks for (:91-93) parses back
      to its quote and author, stripped. */
  lemma FormattedReplyRoundTrip(q: string, a: string)
    requires '\n' !in q && '\n' !in a
    ensures var text := "Quote: " + q + "\nAuthor: " + a;
            && LastValue(ReplyLines(text), QuoteKey) == Some(Strip(q))
            && LastValue(ReplyLines(text), AuthorKey) == Some(Strip(a))
  {
    var tail := TrimEnd(" " + a);
    var l1 := "Quote: " + q;
    var l2 := "Author:" + tail;
    StripFormatted(q, a);
    assert l1 + "\n" + l2 == Join([l1, l2], '\n');
    NoBreakAfter("Quote: ", q);
    NoBreakAfter(" ", a);
    NoBreakTrimmed(" " + a);
    NoBreakAfter("Author:", tail);
    SplitJoin([l1, l2], '\n');
    // The quote line is the first line and the only one with the quote key.
    QuoteLine(q);
    LowerKeys();
    KeyLineOf("Author:", tail, AuthorKey);
    KeysExclusive(l2);
    FirstOfTwo(l1, l2, QuoteKey);
    // The author line's value is the author, whatever `rstrip` took off it.
    LastOfTwo(l1, l2, AuthorKey);
    StripTrimEnd(" " + a);
    StripAfterSpace(a);
  }



  /** The topic a call works on: the caller's type if truthy, otherwise a
      random entry of QuoteTypes (any entry, as far as the model goes). */
  method ChooseTopic(quoteType: Option<string>) returns (topic: string)
    ensures Truthy(quoteType) ==> topic == quoteType.value
    ensures !Truthy(quoteType) ==> topic in QuoteTypes
  {
    if Truthy(quoteType) {
      topic := quoteType.value;
    } else {
      var k :| 0 <= k < |QuoteTypes|;
      topic := QuoteTypes[k];
    }
  }

  /** `generate_quote_with_gemini` (:59-129). `clientAvailable` says whether
      the constructor obtained a client; `reply` is what the client's call
      produced for the prompt about the chosen topic. */
  method GenerateQuote(clientAvailable: bool, quoteType: Option<string>, reply: Reply) returns (r: QuoteResult)
    ensures !clientAvailable ==>
              r == QuoteResult(NoClientQuote, SystemAuthor, if Truthy(quoteType) then quoteType.value else "error")
    ensures clientAvailable && Truthy(quoteType) ==> r.quoteType == quoteType.value
    ensures clientAvailable && !Truthy(quoteType) ==> r.quoteType in QuoteTypes
    ensures clientAvailable && reply.Answer? ==>
              && r.quote == GetOr(LastValue(ReplyLines(reply.text), QuoteKey), DefaultQuote)
              && r.author == GetOr(LastValue(ReplyLines(reply.text), AuthorKey), DefaultAuthor)
    ensures clientAvailable && reply.ApiError? ==>
              r.quote == ErrorQuote(r.quoteType) && r.author == SystemAuthor
    ensures clientAvailable && reply.Unexpected? ==>
              r.quote == UnexpectedQuote && r.author == SystemAuthor
  {
    if !clientAvailable {
      var kind := if Truthy(quoteType) then quoteType.value else "error";
      return QuoteResult(NoClientQuote, SystemAuthor, kind);
    }
    var topic := ChooseTopic(quoteType);
    match reply
    case Answer(text) =>
      var quote, author := ParseReply(text);
      r := QuoteResult(quote, author, topic);
    case ApiError =>
      r := QuoteResult(ErrorQuote(topic), SystemAuthor, topic);
    case Unexpected =>
      r := QuoteResult(UnexpectedQuote, SystemAuthor, topic);
  }

  /** `get_random_quote` (:36-57): the topic is fixed before the call, so the
      returned type is always that topic, client or no client. */
  method GetRandomQuote(clientAvailable: bool, quoteType: Option<string>, reply: Reply) returns (r: QuoteResult)
    ensures Truthy(quoteType) ==> r.quoteType == quoteType.value
    ensures !Truthy(quoteType) ==> r.quoteType in QuoteTypes
    ensures !clientAvailable ==> r.quote == NoClientQuote && r.author == SystemAuthor
    ensures clientAvailable && reply.Answer? ==>
              && r.quote == GetOr(LastValue(ReplyLines(reply.text), QuoteKey), DefaultQuote)
              && r.author == GetOr(LastValue(ReplyLines(reply.text), AuthorKey), DefaultAuthor)
    ensures clientAvailable && reply.ApiError? ==>
              r.quote == ErrorQuote(r.quoteType) && r.author == SystemAuthor
    ensures clientAvailable && reply.Unexpected? ==>
              r.quote == UnexpectedQuote && r.author == SystemAuthor
  {
    var topic := ChooseTopic(quoteType);
    r := GenerateQuote(clientAvailable, Some(topic), reply);
  }
}
