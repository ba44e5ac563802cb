/** A table written out rule by rule, as iptables -S does, is a listing of that table. */
module Listing {
  import opened Text
  import opened Tokenizer
  import opened Firewall

  /** One blank between tokens. */
  function Gaps(n: nat): (g: seq<string>)
    ensures |g| == n && ValidGaps(g)
  {
    seq(n, i requires 0 <= i < n => if i == 0 then "" else " ")
  }

  function WriteLine(toks: Rule): string {
    Tokenizer.Line(Gaps(|toks|), toks)
  }

  function Write(lines: seq<Rule>): string {
    Unlines(seq(|lines|, i requires 0 <= i < |lines| => WriteLine(lines[i])))
  }

  /**
   * Tokens that survive writing: no quote or newline in them, and neither end of the line, where the
   * reader trims, is a white-space character that quoting leaves bare (a no-break space, say).
   */
  predicate Writable(toks: Rule) {
    && (forall i :: 0 <= i < |toks| ==> QUOTE !in toks[i] && '\n' !in toks[i])
    && (toks != [] ==>
          var first, last := Quoted(toks[0]), Quoted(toks[|toks| - 1]);
          !IsSpace(first[0]) && !IsSpace(last[|last| - 1]))
  }

  lemma QuotedIsText(t: string)
    ensures Quoted(t) != "" && ('\n' !in t ==> '\n' !in Quoted(t))
  {
  }

  /** What a written line starts and ends with. */
  lemma {:induction false} LineEnds(gaps: seq<string>, toks: Rule)
    requires |gaps| == |toks| && toks != []
    ensures var s, last := Tokenizer.Line(gaps, toks), Quoted(toks[|toks| - 1]);
            && s != "" && s[|s| - 1] == last[|last| - 1]
            && (gaps[0] == "" ==> s[0] == Quoted(toks[0])[0])
  {
    hide Quoted;
    QuotedIsText(toks[0]);
    var front, rest := gaps[0] + Quoted(toks[0]), Tokenizer.Line(gaps[1..], toks[1..]);
    assert Tokenizer.Line(gaps, toks) == front + rest;
    if |toks| == 1 {
      assert rest == "" && front + rest == front;
    } else {
      LineEnds(gaps[1..], toks[1..]);
      assert toks[1..][|toks| - 2] == toks[|toks| - 1];
    }
  }

  lemma {:induction false} LineStaysOnLine(gaps: seq<string>, toks: Rule)
    requires |gaps| == |toks| && ValidGaps(gaps) && forall i :: 0 <= i < |toks| ==> '\n' !in toks[i]
    ensures '\n' !in Tokenizer.Line(gaps, toks)
  {
    hide Quoted;
    if toks == [] {
    } else {
      QuotedIsText(toks[0]);
      assert '\n' !in gaps[0];
      assert forall i :: 0 <= i < |gaps[1..]| ==> gaps[1..][i] == gaps[i + 1];
      LineStaysOnLine(gaps[1..], toks[1..]);
    }
  }

  /** The reader gets the tokens back. */
  lemma WrittenLineReads(toks: Rule)
    requires Writable(toks)
    ensures Lex(TrimSpace(WriteLine(toks)), false, false, "") == toks && '\n' !in WriteLine(toks)
  {
    hide Quoted, TrimSpace, IsSpace;
    TokensRoundTrip(Gaps(|toks|), toks);
    LineStaysOnLine(Gaps(|toks|), toks);
    if toks != [] {
      LineEnds(Gaps(|toks|), toks);
    }
    TrimmedStays(WriteLine(toks));
  }

  lemma WrittenReads(lines: seq<Rule>)
    requires forall i :: 0 <= i < |lines| ==> Writable(lines[i])
    ensures TokenLines(Write(lines)) == lines + [[]]
  {
    hide Writable, WriteLine, Lex, Split, TrimSpace;
    var texts := seq(|lines|, i requires 0 <= i < |lines| => WriteLine(lines[i]));
    forall i | 0 <= i < |lines|
      ensures Lex(TrimSpace(texts[i]), false, false, "") == lines[i] && '\n' !in texts[i]
    {
      WrittenLineReads(lines[i]);
    }
    SplitUnlines(texts);
    NothingReads();
    assert |TokenLines(Write(lines))| == |lines| + 1;
  }

  lemma NothingReads()
    ensures Lex(TrimSpace(""), false, false, "") == []
  {
  }

  /** The rules of one chain as listing lines, and those of several chains in that order. */
  function ChainLines(c: Token, rs: seq<Rule>): seq<Rule> {
    seq(|rs|, i requires 0 <= i < |rs| => ["-A", c] + rs[i])
  }

  function TableLines(cs: seq<Token>, ch: Chains): seq<Rule> {
    if cs == [] then [] else TableLines(cs[..|cs| - 1], ch) + ChainLines(cs[|cs| - 1], Chain(ch, cs[|cs| - 1]))
  }

  lemma {:induction false} RulesOfBoth(a: seq<Rule>, b: seq<Rule>, c: Token)
    ensures RulesOf(a + b, c) == RulesOf(a, c) + RulesOf(b, c)
  {
    if b == [] {
      assert a + b == a;
    } else {
      RulesOfBoth(a, b[..|b| - 1], c);
      assert (a + b)[..|a + b| - 1] == a + b[..|b| - 1];
    }
  }

  lemma {:induction false} RulesOfChain(d: Token, rs: seq<Rule>, c: Token)
    ensures RulesOf(ChainLines(d, rs), c) == if c == d then rs else []
  {
    if rs == [] {
    } else {
      var init, last := rs[..|rs| - 1], ["-A", d] + rs[|rs| - 1];
      RulesOfChain(d, init, c);
      assert ChainLines(d, rs)[..|rs| - 1] == ChainLines(d, init);
      assert last[2..] == rs[|rs| - 1];
      assert init + [rs[|rs| - 1]] == rs;
    }
  }

  lemma {:induction false} RulesOfTable(cs: seq<Token>, ch: Chains, c: Token)
    requires forall i, j :: 0 <= i < j < |cs| ==> cs[i] != cs[j]
    ensures RulesOf(TableLines(cs, ch), c) == if c in cs then Chain(ch, c) else []
  {
    hide RulesOf, ChainLines, Chain;
    if cs == [] {
      NoRules([], c);
    } else {
      var init, d := cs[..|cs| - 1], cs[|cs| - 1];
      RulesOfTable(init, ch, c);
      RulesOfChain(d, Chain(ch, d), c);
      RulesOfBoth(TableLines(init, ch), ChainLines(d, Chain(ch, d)), c);
      assert cs == init + [d];
      assert c in cs <==> c in init || c == d;
    }
  }

  /** Policy and chain declarations that come first, then every chain's rules: a listing of the table. */
  lemma WrittenTableLists(intro: seq<Rule>, cs: seq<Token>, ch: Chains)
    requires forall t :: t in intro ==> Writable(t) && !IsRuleLine(t)
    requires (forall i, j :: 0 <= i < j < |cs| ==> cs[i] != cs[j]) && forall c :: c in ch ==> c in cs
    requires forall t :: t in TableLines(cs, ch) ==> Writable(t)
    ensures Lists(Write(intro + TableLines(cs, ch)), ch)
  {
    hide Writable, Write, TokenLines, RulesOf, TableLines;
    var lines := intro + TableLines(cs, ch);
    WrittenReads(lines);
    forall c
      ensures RulesOf(TokenLines(Write(lines)), c) == Chain(ch, c)
    {
      RulesOfBoth(lines, [[]], c);
      RulesOfBoth(intro, TableLines(cs, ch), c);
      NoRules(intro, c);
      NoRules([[]], c);
      RulesOfTable(cs, ch, c);
    }
  }

  lemma {:induction false} NoRules(lines: seq<Rule>, c: Token)
    requires forall t :: t in lines ==> !IsRuleLine(t)
    ensures RulesOf(lines, c) == []
  {
    if lines == [] {
    } else {
      NoRules(lines[..|lines| - 1], c);
    }
  }
}
