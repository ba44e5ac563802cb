/**
 * WireGuard's wg0.conf: the interface head that is kept, the peer section that is rendered, and the import of
 * peers.
 */
module WgConf {
  import opened Wrappers
  import opened Text

  // Written in pieces because the verifier reads the characters of short literals only.
  const PEER_MARKER: string := "# >>> wgmgr managed" + " peers (do not edit" + " below) >>>"

  // ---- the head ----

  /** The (trimmed) line starts the peer section. */
  predicate IsHeadEnd(t: string) {
    t == PEER_MARKER || t == "[Peer]" || HasPrefix(t, "### Client") || HasPrefix(t, "# >>> wgmgr")
  }

  predicate NoHeadEnd(lines: seq<string>) {
    forall i :: 0 <= i < |lines| ==> !IsHeadEnd(TrimSpace(lines[i]))
  }

  function HeadLines(lines: seq<string>): (r: seq<string>)
    ensures r <= lines
    ensures NoHeadEnd(r)
    ensures |r| < |lines| ==> IsHeadEnd(TrimSpace(lines[|r|]))
  {
    if lines == [] || IsHeadEnd(TrimSpace(lines[0])) then [] else [lines[0]] + HeadLines(lines[1..])
  }

  function Joined(lines: seq<string>): string {
    if lines == [] then "" else Join(lines, '\n')
  }

  function ConfHead(conf: string): string {
    Joined(HeadLines(Split(conf, '\n')))
  }

  function Lower(s: string): (r: string)
    ensures |r| == |s|
  {
    seq(|s|, i requires 0 <= i < |s| => if 'A' <= s[i] <= 'Z' then (s[i] as int + 32) as char else s[i])
  }

  /** The text of the first address on an Address line. */
  function AddressText(t: string): Option<string> {
    if HasPrefix(Lower(t), "address") then Some(TrimSpace(Split(AfterFirst(t, '='), ',')[0])) else None
  }

  /** The address that counts is the last one in the head that parses. */
  function HeadAddress<T>(lines: seq<string>, parse: string -> Option<T>): Option<T> {
    if lines == [] then
      None
    else
      var text := AddressText(TrimSpace(lines[|lines| - 1]));
      if text.Some? && parse(text.value).Some? then parse(text.value) else HeadAddress(lines[..|lines| - 1], parse)
  }

  /** The lines before the first one that is the peer marker, a [Peer] line or an old client's heading. */
  ghost predicate UpToPeers(lines: seq<string>, head: string) {
    exists k :: 0 <= k <= |lines| && head == Joined(lines[..k])
      && (forall i :: 0 <= i < k ==>
            var t := TrimSpace(lines[i]);
            t != "[Peer]" && !HasPrefix(t, "### Client") && !HasPrefix(t, "# >>> wgmgr"))
      && (k < |lines| ==>
            var t := TrimSpace(lines[k]);
            t == "[Peer]" || HasPrefix(t, "### Client") || HasPrefix(t, "# >>> wgmgr"))
  }

  /** The head goes up to the first line that is the peer marker, a [Peer] line or an old client's heading. */
  method InterfaceHead<T>(conf: string, parse: string -> Option<T>) returns (head: string, address: Option<T>)
    ensures head == ConfHead(conf)
    ensures UpToPeers(Split(conf, '\n'), head)
    ensures address == HeadAddress(HeadLines(Split(conf, '\n')), parse)
  {
    hide IsHeadEnd, TrimSpace, AddressText, Split, HeadLines, Joined, HeadAddress, UpToPeers;
    NoHeadAddress(parse);
    var lines := Split(conf, '\n');
    var headLines: seq<string> := [];
    address := None;
    for i := 0 to |lines|
      invariant headLines == lines[..i]
      invariant HeadLines(lines) == headLines + HeadLines(lines[i..])
      invariant address == HeadAddress(headLines, parse)
    {
      var t := TrimSpace(lines[i]);
      HeadStep(lines, i);
      if IsHeadEnd(t) {
        assert HeadLines(lines) == headLines;
        break;
      }
      OneMoreHeadLine(headLines, lines[i], parse);
      headLines := headLines + [lines[i]];
      var text := AddressText(t);
      if text.Some? {
        var a := parse(text.value);
        if a.Some? {
          address := a;
        }
      }
    }
    assert lines[|lines|..] == [];
    assert HeadLines(lines) == headLines;
    head := Joined(headLines);
    HeadMeans(lines);
  }

  lemma HeadMeans(lines: seq<string>)
    ensures UpToPeers(lines, Joined(HeadLines(lines)))
  {
    hide TrimSpace, Joined;
    assert "# >>> wgmgr" <= PEER_MARKER;
    var k := |HeadLines(lines)|;
    assert HeadLines(lines) == lines[..k];
  }

  /** The words that mark an address line, in any case. */
  predicate AddressWord(w: string) {
    |w| == 7 && forall i :: 0 <= i < 7 ==> w[i] == "address"[i] || w[i] == "ADDRESS"[i]
  }

  lemma AddressWordLower(w: string, rest: string)
    requires AddressWord(w)
    ensures HasPrefix(Lower(w + rest), "address")
  {
    var s, a, A := w + rest, "address", "ADDRESS";
    assert a[0] == 'a' && a[1] == 'd' && a[2] == 'd' && a[3] == 'r' && a[4] == 'e' && a[5] == 's' && a[6] == 's';
    assert A[0] == 'A' && A[1] == 'D' && A[2] == 'D' && A[3] == 'R' && A[4] == 'E' && A[5] == 'S' && A[6] == 'S';
    assert forall i :: 0 <= i < 7 ==> s[i] == w[i];
    assert forall i :: 0 <= i < 7 ==> Lower(s)[i] == a[i];
  }

  /** A head whose last address line reads "Address = v", or so with more behind a comma, gives the server v. */
  lemma AddressRead<T>(a: seq<string>, word: string, v: string, more: string, b: seq<string>,
                       parse: string -> Option<T>)
    requires AddressWord(word) && Trimmed(v) && v != "" && ',' !in v
    requires more == "" || (more[0] == ',' && Trimmed(more))
    requires forall l :: l in b ==> TrimSpace(l) == "" || (TrimSpace(l)[0] != 'a' && TrimSpace(l)[0] != 'A')
    ensures HeadAddress(a + [word + " = " + v + more] + b, parse) ==
              if parse(v).Some? then parse(v) else HeadAddress(a, parse)
  {
    hide AddressText, TrimSpace, HeadAddress;
    var line := word + " = " + v + more;
    NoAddressBehind(a + [line], b, parse);
    OneMoreHeadLine(a, line, parse);
    AddressLine(word, v, more);
  }

  lemma AddressLine(word: string, v: string, more: string)
    requires AddressWord(word) && Trimmed(v) && v != "" && ',' !in v
    requires more == "" || (more[0] == ',' && Trimmed(more))
    ensures AddressText(TrimSpace(word + " = " + v + more)) == Some(v)
  {
    hide TrimSpace, AfterFirst, Split, Lower;
    var line := word + " = " + v + more;
    assert line == word + (" = " + v + more);
    AddressWordLower(word, " = " + v + more);
    assert !IsSpace(line[0]) && !IsSpace(line[|line| - 1]) by {
      assert line[0] == word[0];
      assert "address"[0] == 'a' && "ADDRESS"[0] == 'A';
      assert line[|line| - 1] == if more == "" then v[|v| - 1] else more[|more| - 1];
    }
    TrimmedStays(line);
    assert '=' !in word + " " by {
      assert "address" == ['a', 'd', 'd', 'r', 'e', 's', 's'] && "ADDRESS" == ['A', 'D', 'D', 'R', 'E', 'S', 'S'];
    }
    AfterFirstOf(word + " ", '=', " " + v + more);
    assert line == word + " " + ['='] + (" " + v + more);
    TrimBlank(v);
    if more == "" {
      SplitWord(" " + v, ',');
      assert " " + v + more == " " + v;
    } else {
      SplitAt(" " + v, ',', more[1..]);
      assert " " + v + more == " " + v + [','] + more[1..];
    }
  }

  lemma {:induction false} NoAddressBehind<T>(a: seq<string>, b: seq<string>, parse: string -> Option<T>)
    requires forall l :: l in b ==> TrimSpace(l) == "" || (TrimSpace(l)[0] != 'a' && TrimSpace(l)[0] != 'A')
    ensures HeadAddress(a + b, parse) == HeadAddress(a, parse)
  {
    hide TrimSpace, HeadAddress, AddressText;
    if b == [] {
      assert a + b == a;
    } else {
      var init, l := b[..|b| - 1], b[|b| - 1];
      assert l in b && a + b == a + init + [l];
      NoAddressBehind(a, init, parse);
      OneMoreHeadLine(a + init, l, parse);
      OtherLine(TrimSpace(l));
    }
  }

  lemma OtherLine(t: string)
    requires t == "" || (t[0] != 'a' && t[0] != 'A')
    ensures AddressText(t).None?
  {
    assert "address"[0] == 'a';
    if t != "" {
      assert Lower(t)[0] != 'a';
    }
  }

  lemma NoHeadAddress<T>(parse: string -> Option<T>)
    ensures HeadAddress([], parse) == None
  {
  }

  lemma OneMoreHeadLine<T>(lines: seq<string>, l: string, parse: string -> Option<T>)
    ensures var text := AddressText(TrimSpace(l));
            HeadAddress(lines + [l], parse) ==
            if text.Some? && parse(text.value).Some? then parse(text.value) else HeadAddress(lines, parse)
  {
    hide AddressText, TrimSpace;
    assert (lines + [l])[..|lines|] == lines;
  }

  lemma HeadStep(lines: seq<string>, i: nat)
    requires i < |lines|
    ensures IsHeadEnd(TrimSpace(lines[i])) ==> HeadLines(lines[i..]) == []
    ensures !IsHeadEnd(TrimSpace(lines[i])) ==>
              lines[..i] + HeadLines(lines[i..]) == lines[..i + 1] + HeadLines(lines[i + 1..])
  {
    hide TrimSpace;
    var rest := lines[i..];
    assert rest[0] == lines[i] && rest[1..] == lines[i + 1..];
    hide IsHeadEnd;
    HeadOfFirst(rest);
    if !IsHeadEnd(TrimSpace(lines[i])) {
      assert lines[..i] + ([lines[i]] + HeadLines(lines[i + 1..])) == lines[..i + 1] + HeadLines(lines[i + 1..]);
    }
  }

  lemma HeadOfFirst(lines: seq<string>)
    requires lines != []
    ensures HeadLines(lines) == if IsHeadEnd(TrimSpace(lines[0])) then [] else [lines[0]] + HeadLines(lines[1..])
  {
  }

  // ---- the peer section ----

  /** The columns of a user's row that wg0.conf carries; a user without a key has no peer entry. */
  datatype Client = Client(name: string, pub: string, psk: string, host: string)

  function ClientLines(c: Client): seq<string> {
    ["", "### wgmgr:" + c.name, "[Peer]", "PublicKey = " + c.pub]
    + (if c.psk != "" then ["PresharedKey = " + c.psk] else [])
    + ["AllowedIPs = " + c.host + "/32"]
  }

  function ClientText(c: Client): string {
    Unlines(ClientLines(c))
  }

  function Section(cs: seq<Client>): string {
    if cs == [] then
      "\n\n" + PEER_MARKER + "\n"
    else
      var c := cs[|cs| - 1];
      Section(cs[..|cs| - 1]) + if c.pub == "" then "" else ClientText(c)
  }

  method RenderPeerSection(cs: seq<Client>) returns (b: string)
    ensures b == Section(cs)
    ensures HasPrefix(b, "\n\n# >>> wgmgr managed" + " peers (do not edit" + " below) >>>\n")
  {
    SectionHasMarker(cs);
    b := "\n\n" + PEER_MARKER + "\n";
    hide ClientText;
    assert cs[..0] == [];
    for i := 0 to |cs|
      invariant b == Section(cs[..i])
    {
      assert cs[..i + 1][..i] == cs[..i];
      if cs[i].pub == "" {
        continue;
      }
      b := b + ClientText(cs[i]);
    }
    assert cs[..|cs|] == cs;
  }

  lemma {:induction false} SectionHasMarker(cs: seq<Client>)
    ensures HasPrefix(Section(cs), "\n\n# >>> wgmgr managed" + " peers (do not edit" + " below) >>>\n")
  {
    hide ClientText;
    if cs == [] {
      assert "\n\n" + PEER_MARKER + "\n" == "\n\n# >>> wgmgr managed" + " peers (do not edit" + " below) >>>\n";
    } else {
      SectionHasMarker(cs[..|cs| - 1]);
    }
  }

  function Render(conf: string, cs: seq<Client>): string {
    TrimEnd(ConfHead(conf), '\n') + Section(cs)
  }

  /** The configuration file on disk. */
  class ConfFile {
    var text: string

    constructor (text: string)
      ensures this.text == text
    {
      this.text := text;
    }

    /** Rewrites the peer section, unless that would drop a live peer or the head has no address. */
    method RenderConf<T>(cs: seq<Client>, force: bool, live: set<string>, parse: string -> Option<T>) returns (ok: bool)
      modifies this
      ensures ok <==>
                && (force || forall pk :: pk in live ==> exists i :: 0 <= i < |cs| && cs[i].pub == pk)
                && HeadAddress(HeadLines(Split(old(text), '\n')), parse).Some?
      ensures text == if ok then Render(old(text), cs) else old(text)
    {
      hide Section, ConfHead, HeadLines, Split, HeadAddress;
      if !force {
        var known: set<string> := {};
        for i := 0 to |cs|
          invariant forall pk :: pk in known <==> exists k :: 0 <= k < i && cs[k].pub == pk
        {
          known := known + {cs[i].pub};
        }
        if !(live <= known) {
          return false;
        }
      }
      var head, address := InterfaceHead(text, parse);
      if address.None? {
        return false;
      }
      var section := RenderPeerSection(cs);
      text := TrimEnd(head, '\n') + section;
      return true;
    }
  }

  // ---- rendering again ----

  lemma {:induction false} HeadOfLonger(a: seq<string>, b: seq<string>)
    requires NoHeadEnd(a)
    requires |b| > 0 && IsHeadEnd(TrimSpace(b[0]))
    ensures HeadLines(a + b) == a
  {
    hide IsHeadEnd, TrimSpace;
    if a != [] {
      assert (a + b)[1..] == a[1..] + b;
      HeadOfLonger(a[1..], b);
    } else {
      assert a + b == b;
    }
  }

  lemma MarkerEndsHead()
    ensures IsHeadEnd(TrimSpace(PEER_MARKER)) && !IsHeadEnd(TrimSpace("")) && '\n' !in PEER_MARKER
  {
    assert PEER_MARKER[0] == '#' && PEER_MARKER[|PEER_MARKER| - 1] == '>';
    TrimmedStays(PEER_MARKER);
  }

  /** The section begins with two empty lines and the marker. */
  lemma EmptySection()
    ensures Section([]) == "\n\n" + PEER_MARKER + "\n"
  {
  }

  lemma OneMoreInSection(cs: seq<Client>, c: Client)
    ensures Section(cs + [c]) == Section(cs) + if c.pub == "" then "" else ClientText(c)
  {
    hide ClientText;
    assert (cs + [c])[..|cs|] == cs;
  }

  lemma {:induction false} SectionStart(cs: seq<Client>) returns (rest: string)
    ensures Section(cs) == Section([]) + rest
  {
    hide ClientText, Section;
    if cs == [] {
      rest := "";
    } else {
      var c := cs[|cs| - 1];
      rest := SectionStart(cs[..|cs| - 1]);
      rest := rest + if c.pub == "" then "" else ClientText(c);
      assert cs == cs[..|cs| - 1] + [c];
      OneMoreInSection(cs[..|cs| - 1], c);
    }
  }

  lemma {:induction false} TrimmedHeadLines(lines: seq<string>)
    requires |lines| >= 1
    requires NoHeadEnd(lines) && forall i :: 0 <= i < |lines| ==> '\n' !in lines[i]
    ensures NoHeadEnd(Split(TrimEnd(Join(lines, '\n'), '\n'), '\n'))
  {
    hide IsHeadEnd, TrimSpace, Split, Join, TrimEnd;
    var n := |lines|;
    if n > 1 && lines[n - 1] == "" {
      assert lines == lines[..n - 1] + [""];
      JoinAppend(lines[..n - 1], [""], '\n');
      JoinOne("", '\n');
      assert Join(lines, '\n') == Join(lines[..n - 1], '\n') + ['\n'];
      TrimEndOne(Join(lines[..n - 1], '\n'), '\n');
      TrimmedHeadLines(lines[..n - 1]);
    } else {
      LastLineStays(lines);
      SplitJoin(lines, '\n');
    }
  }

  lemma JoinOne(w: string, c: char)
    ensures Join([w], c) == w
  {
  }

  lemma LastLineStays(lines: seq<string>)
    requires |lines| >= 1 && (|lines| == 1 || lines[|lines| - 1] != "")
    requires forall i :: 0 <= i < |lines| ==> '\n' !in lines[i]
    ensures TrimEnd(Join(lines, '\n'), '\n') == Join(lines, '\n')
  {
    var n := |lines|;
    if n > 1 {
      assert lines == lines[..n - 1] + [lines[n - 1]];
      JoinAppend(lines[..n - 1], [lines[n - 1]], '\n');
    }
  }

  /** Cutting newlines off the end of a head leaves no line that would end it. */
  lemma TrimmedHead(lines: seq<string>)
    requires NoHeadEnd(lines) && forall i :: 0 <= i < |lines| ==> '\n' !in lines[i]
    ensures NoHeadEnd(Split(TrimEnd(Joined(lines), '\n'), '\n'))
  {
    hide IsHeadEnd, TrimSpace, Split, TrimEnd;
    if lines == [] {
      EmptyHead();
      MarkerEndsHead();
      assert Joined(lines) == "";
    } else {
      TrimmedHeadLines(lines);
    }
  }

  /** The lines of a rendered file's head: those of the old head without its trailing newlines, and an empty one. */
  lemma RenderedHeadLines(conf: string, cs: seq<Client>)
    ensures HeadLines(Split(Render(conf, cs), '\n')) == Split(TrimEnd(ConfHead(conf), '\n'), '\n') + [""]
  {
    hide IsHeadEnd, TrimSpace, Split, Join, TrimEnd, HeadLines, Section;
    var lines := HeadLines(Split(conf, '\n'));
    assert forall i :: 0 <= i < |lines| ==> lines[i] == Split(conf, '\n')[i];
    var h := TrimEnd(Joined(lines), '\n');
    MarkerEndsHead();
    TrimmedHead(lines);
    var rest := SectionStart(cs);
    EmptySection();
    RenderedLines(h, PEER_MARKER, rest);
    var front := Split(h, '\n') + [""];
    forall i | 0 <= i < |front|
      ensures !IsHeadEnd(TrimSpace(front[i]))
    {
      assert front[i] == if i < |Split(h, '\n')| then Split(h, '\n')[i] else "";
    }
    var back := [PEER_MARKER] + Split(rest, '\n');
    assert back[0] == PEER_MARKER;
    HeadOfLonger(front, back);
    assert front + back == Split(h, '\n') + ["", PEER_MARKER] + Split(rest, '\n');
  }

  /** The head of a rendered file is the head it was rendered from, with its trailing newlines cut down to one. */
  lemma RenderKeepsHead(conf: string, cs: seq<Client>)
    ensures ConfHead(Render(conf, cs)) == TrimEnd(ConfHead(conf), '\n') + "\n"
  {
    hide TrimSpace, Split, Join, TrimEnd, HeadLines, Render, ConfHead;
    var h := TrimEnd(ConfHead(conf), '\n');
    RenderedHeadLines(conf, cs);
    ConfHeadIs(Render(conf, cs));
    JoinSplit(h, '\n');
    JoinAppend(Split(h, '\n'), [""], '\n');
    JoinOne("", '\n');
  }

  lemma ConfHeadIs(conf: string)
    ensures ConfHead(conf) == Joined(HeadLines(Split(conf, '\n')))
  {
  }

  /** So is the server's address in it. */
  lemma RenderKeepsAddress<T>(conf: string, cs: seq<Client>, parse: string -> Option<T>)
    ensures HeadAddress(HeadLines(Split(Render(conf, cs), '\n')), parse) ==
              HeadAddress(HeadLines(Split(conf, '\n')), parse)
  {
    hide IsHeadEnd, TrimSpace, Split, Join, TrimEnd, Render, HeadAddress, HeadLines;
    var lines := HeadLines(Split(conf, '\n'));
    assert forall i :: 0 <= i < |lines| ==> lines[i] == Split(conf, '\n')[i];
    RenderedHeadLines(conf, cs);
    BlankLineNoAddress(Split(TrimEnd(ConfHead(conf), '\n'), '\n'), parse);
    if lines == [] {
      EmptyHead();
      BlankLineNoAddress([], parse);
      assert [] + [""] == [""];
    } else {
      TrimmedAddress(lines, parse);
    }
  }

  lemma BlankLineNoAddress<T>(lines: seq<string>, parse: string -> Option<T>)
    ensures HeadAddress(lines + [""], parse) == HeadAddress(lines, parse)
  {
    assert (lines + [""])[..|lines|] == lines;
    MarkerEndsHead();
    assert AddressText("").None?;
  }

  lemma {:induction false} TrimmedAddress<T>(lines: seq<string>, parse: string -> Option<T>)
    requires |lines| >= 1 && forall i :: 0 <= i < |lines| ==> '\n' !in lines[i]
    ensures HeadAddress(Split(TrimEnd(Join(lines, '\n'), '\n'), '\n'), parse) == HeadAddress(lines, parse)
    decreases |lines|
  {
    hide TrimSpace, Split, Join, TrimEnd, HeadAddress;
    var n := |lines|;
    if n > 1 && lines[n - 1] == "" {
      assert lines == lines[..n - 1] + [""];
      JoinAppend(lines[..n - 1], [""], '\n');
      JoinOne("", '\n');
      assert Join(lines, '\n') == Join(lines[..n - 1], '\n') + ['\n'];
      TrimEndOne(Join(lines[..n - 1], '\n'), '\n');
      TrimmedAddress(lines[..n - 1], parse);
      BlankLineNoAddress(lines[..n - 1], parse);
    } else {
      LastLineStays(lines);
      SplitJoin(lines, '\n');
    }
  }

  lemma EmptyHead()
    ensures TrimEnd("", '\n') == "" && Split("", '\n') == [""]
  {
  }

  lemma RenderedLines(h: string, marker: string, rest: string)
    requires '\n' !in marker
    ensures Split(h + ("\n\n" + marker + "\n" + rest), '\n') == Split(h, '\n') + ["", marker] + Split(rest, '\n')
  {
    hide Split;
    var after := marker + ['\n'] + rest;
    var tail := "" + ['\n'] + after;
    assert h + ("\n\n" + marker + "\n" + rest) == h + ['\n'] + tail;
    SplitBoth(h, '\n', tail);
    SplitAt("", '\n', after);
    SplitAt(marker, '\n', rest);
  }

  /** Rendering looks only at the head: a second rendering replaces the first, and the same one changes nothing. */
  lemma RenderAgain(conf: string, cs: seq<Client>, ds: seq<Client>)
    ensures Render(Render(conf, cs), ds) == Render(conf, ds)
  {
    hide TrimEnd, ConfHead, Section;
    RenderKeepsHead(conf, cs);
    TrimEndOne(TrimEnd(ConfHead(conf), '\n'), '\n');
    TrimEndIdempotent(ConfHead(conf), '\n');
  }
}
