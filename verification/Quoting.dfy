// Rendering argument vectors for people and shells (agent/src/main.rs, hook/src/approvals.rs).
module Quoting {
  import opened Prelude

  predicate PlainChar(c: char) {
    'a' <= c <= 'z' || 'A' <= c <= 'Z' || '0' <= c <= '9' || c in "@%+=:,./-_"
  }

  predicate Plain(a: string) {
    a != [] && forall i :: 0 <= i < |a| ==> PlainChar(a[i])
  }

  /** Every single quote becomes: end the run, an escaped quote, open the next run. */
  function Escaped(a: string): string {
    if a == [] then []
    else (if a[0] == '\'' then "'\\''" else [a[0]]) + Escaped(a[1..])
  }

  function SingleQuoted(a: string): string {
    "'" + Escaped(a) + "'"
  }

  /** `quote_argument`. */
  function QuoteArgument(a: string): string {
    if Plain(a) then a else SingleQuoted(a)
  }

  /** `quote_argv`. */
  function QuoteArgv(argv: seq<string>): string {
    if argv == [] then []
    else if |argv| == 1 then QuoteArgument(argv[0])
    else QuoteArgument(argv[0]) + " " + QuoteArgv(argv[1..])
  }

  // ---- reading it back as a shell does ----

  // Sections 2.2, 2.2.1, 2.2.2 and 2.3 of the POSIX Shell Command Language: a backslash takes
  // the next character literally, single quotes take everything up to the next one literally,
  // blanks separate words. Any other unquoted special character is refused, so success also
  // says that no expansion, operator or comment could be recognised.

  /** What section 2.2 lists as special to a shell, whatever its position in a word. */
  predicate Special(c: char) {
    c in "|&;<>()$`\\\"' \t\n" || c in "*?[#~"
  }

  function Unquoted(s: string, word: Option<string>): Option<seq<string>>
    decreases |s|
  {
    if s == [] then Some(Ended(word))
    else if s[0] == ' ' then
      (match Unquoted(s[1..], None)
       case None => None
       case Some(rest) => Some(Ended(word) + rest))
    else if s[0] == '\'' then Quoted(s[1..], Text(word))
    else if s[0] == '\\' then
      (if |s| < 2 then None else Unquoted(s[2..], Some(Text(word) + [s[1]])))
    else if Special(s[0]) then None
    else Unquoted(s[1..], Some(Text(word) + [s[0]]))
  }

  function Quoted(s: string, word: string): Option<seq<string>>
    decreases |s|
  {
    if s == [] then None
    else if s[0] == '\'' then Unquoted(s[1..], Some(word))
    else Quoted(s[1..], word + [s[0]])
  }

  function Text(word: Option<string>): string {
    if word.Some? then word.value else []
  }

  function Ended(word: Option<string>): seq<string> {
    if word.Some? then [word.value] else []
  }

  /** The words a shell splits a line into. */
  function Words(s: string): Option<seq<string>> {
    Unquoted(s, None)
  }

  // ---- the round trip ----

  // One character at a time.

  lemma QuotedChar(c: char, tail: string, word: string)
    requires c != '\''
    ensures Quoted([c] + tail, word) == Quoted(tail, word + [c])
  {
    assert ([c] + tail)[1..] == tail;
  }

  lemma QuoteCloses(tail: string, word: string)
    ensures Quoted("'" + tail, word) == Unquoted(tail, Some(word))
  {
    assert ("'" + tail)[1..] == tail;
  }

  lemma EscapedQuote(tail: string, word: string)
    ensures Unquoted("\\'" + tail, Some(word)) == Unquoted(tail, Some(word + ['\'']))
  {
    assert ("\\'" + tail)[2..] == tail;
  }

  lemma QuoteOpens(tail: string, word: Option<string>)
    ensures Unquoted("'" + tail, word) == Quoted(tail, Text(word))
  {
    assert ("'" + tail)[1..] == tail;
  }

  /** Nothing a shell finds special counts as plain. */
  lemma PlainIsNotSpecial(c: char)
    requires PlainChar(c)
    ensures !Special(c)
  {
  }

  lemma PlainCharReads(c: char, tail: string, word: Option<string>)
    requires PlainChar(c)
    ensures Unquoted([c] + tail, word) == Unquoted(tail, Some(Text(word) + [c]))
  {
    PlainIsNotSpecial(c);
    assert ([c] + tail)[1..] == tail;
  }

  /** A quote inside quotes: the run ends, the quote is read, and the next run opens. */
  lemma QuoteInQuotes(tail: string, word: string)
    ensures Quoted("'\\''" + tail, word) == Quoted(tail, word + ['\''])
  {
    assert "'\\''" + tail == "'" + ("\\'" + ("'" + tail));
    QuoteCloses("\\'" + ("'" + tail), word);
    EscapedQuote("'" + tail, word);
    QuoteOpens(tail, Some(word + ['\'']));
  }

  /** Inside quotes the escaped text stands for exactly the original. */
  lemma {:induction false} QuotedRun(a: string, rest: string, word: string)
    ensures Quoted(Escaped(a) + "'" + rest, word) == Unquoted(rest, Some(word + a))
    decreases |a|
  {
    if a == [] {
      assert Escaped(a) + "'" + rest == "'" + rest && word + a == word;
      QuoteCloses(rest, word);
    } else {
      var tail := Escaped(a[1..]) + "'" + rest;
      assert word + [a[0]] + a[1..] == word + a;
      if a[0] == '\'' {
        assert Escaped(a) + "'" + rest == "'\\''" + tail;
        QuoteInQuotes(tail, word);
      } else {
        assert Escaped(a) + "'" + rest == [a[0]] + tail;
        QuotedChar(a[0], tail, word);
      }
      QuotedRun(a[1..], rest, word + [a[0]]);
    }
  }

  lemma {:induction false} PlainRun(a: string, rest: string, word: Option<string>)
    requires Plain(a)
    ensures Unquoted(a + rest, word) == Unquoted(rest, Some(Text(word) + a))
    decreases |a|
  {
    HeadOff(a, rest, Text(word));
    PlainCharReads(a[0], a[1..] + rest, word);
    if |a| == 1 {
      assert a[1..] + rest == rest && [a[0]] == a;
    } else {
      PlainRun(a[1..], rest, Some(Text(word) + [a[0]]));
    }
  }

  lemma HeadOff(a: string, rest: string, front: string)
    requires a != []
    ensures a + rest == [a[0]] + (a[1..] + rest)
    ensures front + [a[0]] + a[1..] == front + a
  {
  }

  lemma SingleQuotedReads(a: string, rest: string)
    ensures Unquoted(SingleQuoted(a) + rest, None) == Unquoted(rest, Some(a))
  {
    var s := SingleQuoted(a) + rest;
    assert s[0] == '\'' && s[1..] == Escaped(a) + "'" + rest;
    QuotedRun(a, rest, []);
    assert [] + a == a;
  }

  lemma ArgumentReads(a: string, rest: string)
    ensures Unquoted(QuoteArgument(a) + rest, None) == Unquoted(rest, Some(a))
  {
    if Plain(a) {
      PlainRun(a, rest, None);
      assert [] + a == a;
    } else {
      SingleQuotedReads(a, rest);
    }
  }

  lemma WordEnds(a: string, rest: string)
    ensures Unquoted(" " + rest, Some(a)) == (match Words(rest) case None => None case Some(ws) => Some([a] + ws))
  {
  }

  /** A shell reads every rendered vector back as exactly that vector, expanding nothing. */
  lemma {:induction false} QuoteArgvRoundTrip(argv: seq<string>)
    ensures Words(QuoteArgv(argv)) == Some(argv)
  {
    if |argv| == 1 {
      assert QuoteArgument(argv[0]) + [] == QuoteArgument(argv[0]);
      ArgumentReads(argv[0], []);
      assert [argv[0]] == argv;
    } else if |argv| > 1 {
      var rest := QuoteArgv(argv[1..]);
      assert QuoteArgv(argv) == QuoteArgument(argv[0]) + (" " + rest);
      ArgumentReads(argv[0], " " + rest);
      WordEnds(argv[0], rest);
      QuoteArgvRoundTrip(argv[1..]);
      assert [argv[0]] + argv[1..] == argv;
    }
  }

  /** Letters, digits and the ten harmless signs are shown as they are; anything else is quoted. */
  lemma ShownAsIsIff(a: string)
    ensures QuoteArgument(a) == a <==>
            a != [] && forall i :: 0 <= i < |a| ==>
              'a' <= a[i] <= 'z' || 'A' <= a[i] <= 'Z' || '0' <= a[i] <= '9' || a[i] in "@%+=:,./-_"
  {
    EscapedGrows(a);
  }

  lemma {:induction false} EscapedGrows(a: string)
    ensures |Escaped(a)| >= |a|
  {
    if a != [] {
      EscapedGrows(a[1..]);
    }
  }

  /** So two different vectors never look the same to the operator. */
  lemma QuoteArgvInjective(a: seq<string>, b: seq<string>)
    requires QuoteArgv(a) == QuoteArgv(b)
    ensures a == b
  {
    QuoteArgvRoundTrip(a);
    QuoteArgvRoundTrip(b);
  }

  /** The managed hook line: always-quoted executable, then plain words. */
  lemma {:induction false} CommandLineReads(executable: string, plain: seq<string>)
    requires forall i :: 0 <= i < |plain| ==> Plain(plain[i])
    ensures Words(SingleQuoted(executable) + Spaced(plain)) == Some([executable] + plain)
  {
    SingleQuotedReads(executable, Spaced(plain));
    SpacedReads(executable, plain);
  }

  /** Plain words, each after a space. */
  function Spaced(words: seq<string>): string {
    if words == [] then [] else " " + words[0] + Spaced(words[1..])
  }

  lemma SpacedWordReads(word: string, next: string, rest: string)
    requires Plain(next)
    ensures Unquoted(" " + (next + rest), Some(word)) ==
            match Unquoted(rest, Some(next)) case None => None case Some(ws) => Some([word] + ws)
  {
    WordEnds(word, next + rest);
    PlainRun(next, rest, None);
    assert [] + next == next;
  }

  lemma {:induction false} SpacedReads(word: string, plain: seq<string>)
    requires forall i :: 0 <= i < |plain| ==> Plain(plain[i])
    ensures Unquoted(Spaced(plain), Some(word)) == Some([word] + plain)
    decreases |plain|
  {
    if plain == [] {
      assert [word] + plain == [word];
    } else {
      var rest := Spaced(plain[1..]);
      assert Spaced(plain) == " " + (plain[0] + rest);
      SpacedWordReads(word, plain[0], rest);
      SpacedReads(plain[0], plain[1..]);
      assert [word] + ([plain[0]] + plain[1..]) == [word] + plain;
    }
  }
}
