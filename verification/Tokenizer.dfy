/** Splitting one line of an iptables listing into tokens, honouring double quotes. */
module Tokenizer {

  const QUOTE := '"'

  predicate Blank(c: char) { c == ' ' || c == '\t' }

  /** The tokens the line still yields, in state (inside quotes?, token begun?, its text so far). */
  function Lex(line: string, inQ: bool, have: bool, cur: string): seq<string> {
    if line == "" then
      if have then [cur] else []
    else if line[0] == QUOTE then
      Lex(line[1..], !inQ, true, cur)
    else if Blank(line[0]) && !inQ then
      if have then [cur] + Lex(line[1..], inQ, false, "") else Lex(line[1..], inQ, false, cur)
    else
      Lex(line[1..], inQ, true, cur + [line[0]])
  }

  method SplitRule(line: string) returns (toks: seq<string>)
    ensures toks == Lex(line, false, false, "")
  {
    toks := [];
    var cur, inQ, have := "", false, false;
    for i := 0 to |line|
      invariant toks + Lex(line[i..], inQ, have, cur) == Lex(line, false, false, "")
    {
      var r := line[i];
      assert line[i..][0] == r && line[i..][1..] == line[i + 1..];
      if r == QUOTE {
        inQ := !inQ;
        have := true;
      } else if Blank(r) && !inQ {
        if have {
          assert toks + ([cur] + Lex(line[i + 1..], inQ, false, "")) ==
                   toks + [cur] + Lex(line[i + 1..], inQ, false, "");
          toks := toks + [cur];
          cur := "";
          have := false;
        }
      } else {
        cur := cur + [r];
        have := true;
      }
    }
    if have {
      toks := toks + [cur];
    }
  }

  // ---- lines as a writer may write them ----

  /** A stretch of a token, inside quotes or not. */
  datatype Piece = Piece(quoted: bool, text: string)

  /** Quotes are not part of any text; outside quotes there are no blanks, and something is there. */
  predicate Proper(ps: seq<Piece>) {
    && ps != []
    && forall p :: p in ps ==> && '"' !in p.text
                               && (!p.quoted ==> p.text != "" && ' ' !in p.text && '\t' !in p.text)
  }

  function Written(ps: seq<Piece>): string {
    if ps == [] then ""
    else (if ps[0].quoted then "\"" + ps[0].text + "\"" else ps[0].text) + Written(ps[1..])
  }

  function Content(ps: seq<Piece>): string {
    if ps == [] then "" else ps[0].text + Content(ps[1..])
  }

  predicate AllBlank(s: string) {
    forall i :: 0 <= i < |s| ==> s[i] == ' ' || s[i] == '\t'
  }

  /** Each token after its gap of blanks. */
  function PieceLine(gaps: seq<string>, toks: seq<seq<Piece>>): string
    requires |gaps| == |toks|
  {
    if toks == [] then "" else gaps[0] + Written(toks[0]) + PieceLine(gaps[1..], toks[1..])
  }

  /** A writer may use any blanks, at least one between two tokens. */
  predicate ValidGaps(gaps: seq<string>) {
    forall i :: 0 <= i < |gaps| ==> AllBlank(gaps[i]) && (i > 0 ==> gaps[i] != "")
  }

  lemma {:induction false} LexGap(g: string, rest: string)
    requires AllBlank(g)
    ensures Lex(g + rest, false, false, "") == Lex(rest, false, false, "")
  {
    if g == "" {
      assert g + rest == rest;
    } else {
      LexGap(g[1..], rest);
      assert (g + rest)[1..] == g[1..] + rest;
    }
  }

  /** A run of plain characters is added to the token under construction. */
  lemma {:induction false} LexPlain(w: string, rest: string, inQ: bool, have: bool, cur: string)
    requires '"' !in w && (inQ || (' ' !in w && '\t' !in w))
    ensures Lex(w + rest, inQ, have, cur) == Lex(rest, inQ, have || w != "", cur + w)
  {
    if w == "" {
      assert w + rest == rest && cur + w == cur;
    } else {
      LexPlain(w[1..], rest, inQ, true, cur + [w[0]]);
      assert (w + rest)[1..] == w[1..] + rest;
      assert cur + [w[0]] + w[1..] == cur + w;
    }
  }

  lemma LexQuote(rest: string, inQ: bool, have: bool, cur: string)
    ensures Lex("\"" + rest, inQ, have, cur) == Lex(rest, !inQ, true, cur)
  {
    var s := "\"" + rest;
    assert s[0] == '"' && s[1..] == rest;
  }

  function WrittenOne(p: Piece): string {
    if p.quoted then "\"" + p.text + "\"" else p.text
  }

  lemma LexPiece(p: Piece, rest: string, have: bool, cur: string)
    requires '"' !in p.text && (!p.quoted ==> p.text != "" && ' ' !in p.text && '\t' !in p.text)
    ensures Lex(WrittenOne(p) + rest, false, have, cur) == Lex(rest, false, true, cur + p.text)
  {
    hide Lex;
    if p.quoted {
      assert WrittenOne(p) + rest == "\"" + (p.text + ("\"" + rest));
      LexQuote(p.text + ("\"" + rest), false, have, cur);
      LexPlain(p.text, "\"" + rest, true, true, cur);
      LexQuote(rest, true, true, cur + p.text);
    } else {
      LexPlain(p.text, rest, false, have, cur);
    }
  }

  lemma ProperParts(ps: seq<Piece>)
    requires Proper(ps)
    ensures var p := ps[0]; '"' !in p.text && (!p.quoted ==> p.text != "" && ' ' !in p.text && '\t' !in p.text)
    ensures |ps| > 1 ==> Proper(ps[1..])
    ensures Written(ps) == WrittenOne(ps[0]) + Written(ps[1..]) && Content(ps) == ps[0].text + Content(ps[1..])
  {
    assert ps[0] in ps && forall p :: p in ps[1..] ==> p in ps;
  }

  lemma NoPieces()
    ensures Written([]) == "" && Content([]) == ""
  {
  }

  /** A token is read as the texts of its pieces, one after the other. */
  lemma {:induction false} LexPieces(ps: seq<Piece>, rest: string, have: bool, cur: string)
    requires Proper(ps)
    ensures Lex(Written(ps) + rest, false, have, cur) == Lex(rest, false, true, cur + Content(ps))
    decreases |ps|
  {
    assert ps != [];
    hide Lex, Written, Content, Proper, WrittenOne;
    ProperParts(ps);
    var p, tail := ps[0], Written(ps[1..]) + rest;
    assert Written(ps) + rest == WrittenOne(p) + tail;
    LexPiece(p, tail, have, cur);
    if |ps| == 1 {
      NoPieces();
      assert ps[1..] == [] && tail == rest && Content(ps) == p.text;
    } else {
      LexPieces(ps[1..], rest, true, cur + p.text);
      assert cur + p.text + Content(ps[1..]) == cur + Content(ps);
    }
  }

  /** Reading a line of such tokens, with blanks at its end or not, gives exactly their contents. */
  lemma {:induction false} PiecesRoundTrip(gaps: seq<string>, toks: seq<seq<Piece>>, end: string)
    requires |gaps| == |toks| && ValidGaps(gaps) && AllBlank(end)
    requires forall i :: 0 <= i < |toks| ==> Proper(toks[i])
    ensures Lex(PieceLine(gaps, toks) + end, false, false, "") ==
            seq(|toks|, i requires 0 <= i < |toks| => Content(toks[i]))
    decreases |toks|
  {
    hide Written, Content, Proper;
    if toks == [] {
      LexGap(end, "");
      assert PieceLine(gaps, toks) + end == end == end + "";
    } else {
      var rest := PieceLine(gaps[1..], toks[1..]) + end;
      assert PieceLine(gaps, toks) + end == gaps[0] + (Written(toks[0]) + rest);
      LexGap(gaps[0], Written(toks[0]) + rest);
      LexPieces(toks[0], rest, false, "");
      assert "" + Content(toks[0]) == Content(toks[0]);
      assert forall i :: 0 <= i < |gaps[1..]| ==> gaps[1..][i] == gaps[i + 1];
      assert forall i :: 0 <= i < |toks[1..]| ==> toks[1..][i] == toks[i + 1];
      PiecesRoundTrip(gaps[1..], toks[1..], end);
      if toks[1..] == [] {
        assert rest == end;
      } else {
        assert gaps[1] != "" && rest[0] == gaps[1][0];
      }
      assert Lex(rest, false, true, Content(toks[0])) == [Content(toks[0])] + Lex(rest, false, false, "");
    }
  }

  // ---- writing tokens so that they can be read back ----

  predicate NeedsQuotes(t: string) {
    t == "" || exists i :: 0 <= i < |t| && (t[i] == ' ' || t[i] == '\t')
  }

  function Quoted(t: string): string {
    if NeedsQuotes(t) then "\"" + t + "\"" else t
  }

  /** Each token, quoted where needed, after its gap of blanks. */
  function Line(gaps: seq<string>, toks: seq<string>): string
    requires |gaps| == |toks|
  {
    if toks == [] then "" else gaps[0] + Quoted(toks[0]) + Line(gaps[1..], toks[1..])
  }

  /** The tokens, each as one piece. */
  function OnePieces(toks: seq<string>): (r: seq<seq<Piece>>)
    ensures |r| == |toks|
  {
    seq(|toks|, i requires 0 <= i < |toks| => [Piece(NeedsQuotes(toks[i]), toks[i])])
  }

  lemma OnePiece(t: string)
    ensures Written([Piece(NeedsQuotes(t), t)]) == Quoted(t) && Content([Piece(NeedsQuotes(t), t)]) == t
    ensures '"' !in t ==> Proper([Piece(NeedsQuotes(t), t)])
  {
    var ps := [Piece(NeedsQuotes(t), t)];
    assert Written(ps[1..]) == "" && Content(ps[1..]) == "";
  }

  lemma {:induction false} LineIsPieces(gaps: seq<string>, toks: seq<string>)
    requires |gaps| == |toks|
    ensures Line(gaps, toks) == PieceLine(gaps, OnePieces(toks))
  {
    hide Written, Quoted, NeedsQuotes;
    if toks == [] {
    } else {
      LineIsPieces(gaps[1..], toks[1..]);
      OnePiece(toks[0]);
      assert OnePieces(toks)[1..] == OnePieces(toks[1..]);
    }
  }

  /** Reading back a line written from tokens yields exactly those tokens. */
  lemma TokensRoundTrip(gaps: seq<string>, toks: seq<string>)
    requires |gaps| == |toks| && ValidGaps(gaps)
    requires forall i :: 0 <= i < |toks| ==> '"' !in toks[i]
    ensures Lex(Line(gaps, toks), false, false, "") == toks
  {
    hide Lex, Written, Content, NeedsQuotes, Proper, Line, PieceLine;
    forall i | 0 <= i < |toks|
      ensures Proper(OnePieces(toks)[i]) && Content(OnePieces(toks)[i]) == toks[i]
    {
      OnePiece(toks[i]);
    }
    LineIsPieces(gaps, toks);
    PiecesRoundTrip(gaps, OnePieces(toks), "");
    assert PieceLine(gaps, OnePieces(toks)) + "" == PieceLine(gaps, OnePieces(toks));
  }
}
