/** Lease files read back what they say: one entry per address, no leaks between blocks, and the round trip. */
module LeaseLaws {
  import opened Flattening
  import opened HostMerge
  import opened KeyedLists
  import opened Leases
  import opened OrderedSets
  import opened Text
  import opened Wrappers

  /**
   * One lease per address, in the order the addresses first appeared, each from the last block of its address.
   */
  lemma {:induction false} OneLeasePerAddress(blocks: seq<Lease>)
    ensures var r := PutAll([], blocks, LeaseIp);
            && Distinct(r, LeaseIp)
            && KeysOf(r, LeaseIp) == Dedupe(KeysOf(blocks, LeaseIp))
            && forall ip :: Get(r, LeaseIp, ip) == Last(blocks, LeaseIp, ip)
  {
    PutAllFromEmpty(blocks, LeaseIp);
  }

  // ---- Lines one by one ----

  ghost predicate Plain(kinds: seq<LineKind>) {
    forall i :: 0 <= i < |kinds| ==> kinds[i].Other?
  }

  /** Lines of no meaning change nothing, wherever they stand. */
  lemma {:induction false} PlainLines(kinds: seq<LineKind>, plain: seq<LineKind>)
    requires AllAddressed(kinds) && Plain(plain)
    ensures AllAddressed(kinds + plain) && Blocks(kinds + plain) == Blocks(kinds)
  {
    hide Blocks, LeaseSince, OpenAt, AllAddressed;
    if plain == [] {
      assert kinds + plain == kinds;
    } else {
      var front, x := plain[..|plain| - 1], plain[|plain| - 1];
      PlainLines(kinds, front);
      assert plain[|plain| - 1].Other?;
      OneMoreBlock(kinds + front, x);
      assert kinds + plain == kinds + front + [x];
    }
  }

  lemma {:induction false} PlainSince(kinds: seq<LineKind>, plain: seq<LineKind>, start: nat)
    requires start < |kinds| && Plain(plain)
    ensures MacSince(kinds + plain, start) == MacSince(kinds, start)
    ensures NameSince(kinds + plain, start) == NameSince(kinds, start)
  {
    if plain == [] {
      assert kinds + plain == kinds;
    } else {
      var front, x := plain[..|plain| - 1], plain[|plain| - 1];
      PlainSince(kinds, front, start);
      OneMoreLine(kinds + front, x, start);
      assert kinds + plain == kinds + front + [x];
    }
  }

  /** Inside a block nothing is delivered and the block stays open. */
  lemma {:induction false} BlockBody(before: seq<LineKind>, ip: string, body: seq<LineKind>)
    requires AllAddressed(before) && forall i :: 0 <= i < |body| ==> !body[i].Opening? && !body[i].Closing?
    ensures var all, own := before + [Opening(Some(ip))] + body, [Opening(Some(ip))] + body;
            && AllAddressed(all) && Blocks(all) == Blocks(before) && OpenAt(all) == Some(|before|)
            && LeaseSince(all, |before|) == LeaseSince(own, 0)
  {
    var open := Opening(Some(ip));
    var start := before + [open];
    if body == [] {
      OneMoreBlock(before, open);
      assert start + body == start && [open] + body == [open];
      assert start[..|before|] == before && Blocks(before) + [] == Blocks(before);
    } else {
      var front, x := body[..|body| - 1], body[|body| - 1];
      var all, own := start + front, [open] + front;
      BlockBody(before, ip, front);
      OneMoreBlock(all, x);
      OpenAfter(all, x);
      OneMoreLine(all, x, |before|);
      OneMoreLine(own, x, 0);
      assert start + body == all + [x] && [open] + body == own + [x];
      assert Blocks(all) + [] == Blocks(all);
    }
  }

  /** No field leaks: whatever came before, a block delivers the lease its own lines spell. */
  lemma {:induction false} BlockStandsAlone(before: seq<LineKind>, ip: string, body: seq<LineKind>)
    requires AllAddressed(before) && forall i :: 0 <= i < |body| ==> !body[i].Opening? && !body[i].Closing?
    ensures var all := before + [Opening(Some(ip))] + body + [Closing];
            && AllAddressed(all) && OpenAt(all).None?
            && Blocks(all) == Blocks(before) + [LeaseSince([Opening(Some(ip))] + body, 0)]
  {
    var all := before + [Opening(Some(ip))] + body;
    BlockBody(before, ip, body);
    OneMoreBlock(all, Closing);
    OpenAfter(all, Closing);
  }

  // ---- Printed lines ----

  predicate IsWord(s: string) {
    s != [] && forall c :: c in s ==> !IsSpace(c)
  }

  lemma {:induction false} StripPad(pad: string, s: string)
    requires (forall c :: c in pad ==> IsSpace(c)) && s != [] && !IsSpace(s[0])
    ensures StripLeft(pad + s) == s
  {
    if pad == [] {
      assert pad + s == s;
    } else {
      assert pad == [pad[0]] + pad[1..] && (pad + s)[1..] == pad[1..] + s;
      StripPad(pad[1..], s);
    }
  }

  lemma {:induction false} DropTail(s: string, tail: string)
    requires s != [] && s[|s| - 1] != ';' && forall c :: c in tail ==> c == ';'
    ensures DropSemicolons(s + tail) == s
  {
    if tail == [] {
      assert s + tail == s;
    } else {
      var n := |tail| - 1;
      assert tail[n] in tail && forall c :: c in tail[..n] ==> c in tail;
      assert tail == tail[..n] + [tail[n]] && (s + tail)[..|s + tail| - 1] == s + tail[..n];
      DropTail(s, tail[..n]);
    }
  }

  /** Indentation and the closing semicolons go; the rest of the line stays. */
  lemma {:induction false} TrimmedLine(pad: string, s: string, tail: string)
    requires (forall c :: c in pad ==> IsSpace(c)) && (forall c :: c in tail ==> c == ';')
    requires s != [] && !IsSpace(s[0]) && !IsSpace(s[|s| - 1]) && s[|s| - 1] != ';'
    ensures Trimmed(pad + s + tail) == s
  {
    var t := s + tail;
    assert pad + s + tail == pad + t;
    StripPad(pad, t);
    assert tail != [] ==> tail[|tail| - 1] in tail;
    assert !IsSpace(t[|t| - 1]);
    DropTail(s, tail);
  }

  lemma {:induction false} WordsCons(w: string, rest: string)
    requires IsWord(w)
    ensures Words(w + " " + rest) == [w] + Words(rest)
    ensures Words(w) == [w]
  {
    var s := w + " " + rest;
    assert forall i :: 0 <= i < |w| ==> s[i] == w[i] && w[i] in w;
    assert s[|w|] == ' ' && IsSpace(' ');
    assert WordEnd(s) == |w| && s[..|w|] == w && s[|w|..][1..] == rest;
    assert WordEnd(w) == |w| && w[..|w|] == w && w[|w|..] == [];
  }

  function OpeningLine(ip: string): string { "lease " + ip + " {" }

  function HardwareLine(mac: string): string { "  hardware ethernet " + mac + ";" }

  function NameLine(name: string): string { "  client-hostname \"" + name + "\";" }

  lemma {:induction false} OpeningLineTrimmed(ip: string)
    requires IsWord(ip)
    ensures Trimmed(OpeningLine(ip)) == OpeningLine(ip)
    ensures Words(OpeningLine(ip)) == ["lease", ip, "{"]
  {
    hide Trimmed, Words;
    var line := OpeningLine(ip);
    assert !IsSpace('l') && !IsSpace('{');
    assert [] + line + [] == line;
    TrimmedLine([], line, []);
    assert line == "lease" + " " + (ip + " " + "{");
    WordsCons("lease", ip + " " + "{");
    WordsCons(ip, "{");
    WordsCons("{", []);
  }

  lemma {:induction false} OpeningLineKind(ip: string, lower: string -> string)
    requires IsWord(ip)
    ensures KindOf(OpeningLine(ip), lower) == Opening(Some(ip))
  {
    hide Trimmed, Words;
    OpeningLineTrimmed(ip);
    assert OpeningLine(ip)[..6] == "lease ";
  }

  lemma {:induction false} HardwareLineTrimmed(mac: string)
    requires IsWord(mac) && mac[|mac| - 1] != ';'
    ensures Trimmed(HardwareLine(mac)) == "hardware ethernet " + mac
  {
    hide Trimmed;
    var line := "hardware ethernet " + mac;
    assert mac[|mac| - 1] in mac && !IsSpace('h') && IsSpace(' ');
    assert HardwareLine(mac) == "  " + line + ";";
    TrimmedLine("  ", line, ";");
  }

  lemma {:induction false} HardwareLineWords(mac: string)
    requires IsWord(mac)
    ensures Words("hardware ethernet " + mac) == ["hardware", "ethernet", mac]
  {
    hide Words;
    assert "hardware ethernet " + mac == "hardware" + " " + ("ethernet" + " " + mac);
    WordsCons("hardware", "ethernet" + " " + mac);
    WordsCons("ethernet", mac);
    WordsCons(mac, []);
  }

  lemma {:induction false} HardwareLineKind(mac: string, lower: string -> string)
    requires IsWord(mac) && mac[|mac| - 1] != ';'
    ensures KindOf(HardwareLine(mac), lower) == Hardware(lower(mac))
  {
    hide Trimmed, Words, HardwareLine;
    var line := "hardware ethernet " + mac;
    HardwareLineTrimmed(mac);
    HardwareLineWords(mac);
    assert line[0] == 'h' && line[..18] == "hardware ethernet " && "lease "[0] == 'l';
  }

  lemma {:induction false} NameLineTrimmed(name: string)
    requires '"' !in name
    ensures Trimmed(NameLine(name)) == "client-hostname \"" + name + "\""
    ensures Quoted("client-hostname \"" + name + "\"") == Some(name)
  {
    hide Trimmed, Quoted;
    var line := "client-hostname \"" + name + "\"";
    assert line[0] == 'c' && line[|line| - 1] == '"' && !IsSpace('c') && !IsSpace('"') && IsSpace(' ');
    assert NameLine(name) == "  " + line + ";";
    TrimmedLine("  ", line, ";");
    assert line == "client-hostname " + "\"" + name + "\"";
    QuotedBetween("client-hostname ", name);
  }

  lemma {:induction false} NameLineKind(name: string, lower: string -> string)
    requires '"' !in name
    ensures KindOf(NameLine(name), lower) == ClientName(Some(name))
  {
    hide Trimmed, Quoted, Words, NameLine;
    var line := "client-hostname \"" + name + "\"";
    NameLineTrimmed(name);
    assert line[0] == 'c' && line[..16] == "client-hostname ";
    assert "lease "[0] == 'l' && "hardware ethernet "[0] == 'h';
  }

  lemma {:induction false} QuotedBetween(head: string, name: string)
    requires '"' !in head && '"' !in name
    ensures Quoted(head + "\"" + name + "\"") == Some(name)
  {
    var line := head + "\"" + name + "\"";
    assert forall i :: 0 <= i < |head| ==> line[i] == head[i] && head[i] in head;
    assert line[|head|] == '"' && Quote(line) == |head|;
    var rest := line[|head| + 1..];
    assert rest == name + "\"";
    assert forall i :: 0 <= i < |name| ==> rest[i] == name[i] && name[i] in name;
    assert rest[|name|] == '"' && Quote(rest) == |name| && rest[..|name|] == name;
  }

  lemma {:induction false} ClosingLineKind(lower: string -> string)
    ensures KindOf("}", lower) == Closing
  {
    assert [] + "}" + [] == "}";
    TrimmedLine([], "}", []);
    assert "lease "[0] == 'l' && "hardware ethernet "[0] == 'h' && "client-hostname "[0] == 'c';
  }

  // ---- Any line ----

  predicate AllSpace(s: string) {
    forall c :: c in s ==> IsSpace(c)
  }

  predicate AllSemicolons(s: string) {
    forall c :: c in s ==> c == ';'
  }

  /** `raw` says `text`: around it stands whitespace, and semicolons between its end and the trailing whitespace. */
  ghost predicate Says(raw: string, lead: string, text: string, semis: string, trail: string) {
    var core := text + semis;
    && raw == lead + core + trail && AllSpace(lead) && AllSemicolons(semis) && AllSpace(trail)
    && (text != [] ==> !IsSpace(text[0]) && text[|text| - 1] != ';')
    && (core != [] ==> !IsSpace(core[|core| - 1]))
  }

  lemma {:induction false} StripLeftParts(s: string) returns (lead: string)
    ensures s == lead + StripLeft(s) && AllSpace(lead)
  {
    lead := [];
    if s != [] && IsSpace(s[0]) {
      var more := StripLeftParts(s[1..]);
      assert s == [s[0]] + s[1..];
      lead := [s[0]] + more;
    }
  }

  lemma {:induction false} StripRightParts(s: string) returns (trail: string)
    ensures s == StripRight(s) + trail && AllSpace(trail)
    ensures StripRight(s) != [] ==> StripRight(s)[0] == s[0] && !IsSpace(StripRight(s)[|StripRight(s)| - 1])
  {
    trail := [];
    if s != [] && IsSpace(s[|s| - 1]) {
      var front, x := s[..|s| - 1], s[|s| - 1];
      var more := StripRightParts(front);
      assert s == front + [x];
      trail := more + [x];
    }
  }

  lemma {:induction false} SemicolonParts(s: string) returns (semis: string)
    ensures s == DropSemicolons(s) + semis && AllSemicolons(semis)
    ensures DropSemicolons(s) != [] ==>
              DropSemicolons(s)[0] == s[0] && DropSemicolons(s)[|DropSemicolons(s)| - 1] != ';'
  {
    semis := [];
    if s != [] && s[|s| - 1] == ';' {
      var front, x := s[..|s| - 1], s[|s| - 1];
      var more := SemicolonParts(front);
      assert s == front + [x];
      semis := more + [x];
    }
  }

  /** Every line says something, and only one thing. */
  lemma {:induction false} LineSays(raw: string) returns (lead: string, semis: string, trail: string)
    ensures Says(raw, lead, Trimmed(raw), semis, trail)
  {
    var left := StripLeft(raw);
    var core := StripRight(left);
    lead := StripLeftParts(raw);
    trail := StripRightParts(left);
    semis := SemicolonParts(core);
    assert raw == lead + core + trail;
  }

  lemma {:induction false} SaysOne(raw: string, lead: string, text: string, semis: string, trail: string)
    requires Says(raw, lead, text, semis, trail)
    ensures Trimmed(raw) == text
  {
    var core := text + semis;
    assert raw == lead + (core + trail);
    if core == [] {
      assert text == [] && raw == lead + trail;
      AllStripped(lead, trail);
    } else {
      assert !IsSpace(';') && core[0] in core;
      StripPad(lead, core + trail);
      StripTrail(core, trail);
      assert Trimmed(raw) == DropSemicolons(core);
      if text == [] {
        assert core == semis;
        DropAll(semis);
      } else {
        DropTail(text, semis);
      }
    }
  }

  lemma {:induction false} AllStripped(lead: string, trail: string)
    requires AllSpace(lead) && AllSpace(trail)
    ensures Trimmed(lead + trail) == []
    decreases |lead| + |trail|
  {
    if lead == [] {
      assert lead + trail == trail;
      if trail != [] {
        assert trail == [trail[0]] + trail[1..];
        AllStripped(trail[1..], []);
        assert trail[1..] + [] == trail[1..];
      }
    } else {
      assert lead == [lead[0]] + lead[1..] && (lead + trail)[1..] == lead[1..] + trail;
      AllStripped(lead[1..], trail);
    }
  }

  lemma {:induction false} StripTrail(s: string, trail: string)
    requires s != [] && !IsSpace(s[|s| - 1]) && AllSpace(trail)
    ensures StripRight(s + trail) == s
  {
    if trail == [] {
      assert s + trail == s;
    } else {
      var n := |trail| - 1;
      assert trail == trail[..n] + [trail[n]] && (s + trail)[..|s + trail| - 1] == s + trail[..n];
      StripTrail(s, trail[..n]);
    }
  }

  lemma {:induction false} DropAll(semis: string)
    requires AllSemicolons(semis)
    ensures DropSemicolons(semis) == []
  {
    if semis != [] {
      var n := |semis| - 1;
      assert semis[n] in semis && forall c :: c in semis[..n] ==> c in semis;
      DropAll(semis[..n]);
    }
  }

  /** What a line means is decided by what it says: by how that begins, or by its being a brace and nothing else. */
  lemma {:induction false} LineMeans(
      raw: string, lower: string -> string, lead: string, text: string, semis: string, trail: string)
    requires Says(raw, lead, text, semis, trail)
    ensures var kind := KindOf(raw, lower);
            && (kind.Opening? <==> |text| >= 6 && text[..6] == "lease ")
            && (kind.Hardware? <==> |text| >= 18 && text[..18] == "hardware ethernet ")
            && (kind.ClientName? <==> |text| >= 16 && text[..16] == "client-hostname ")
            && (kind.Closing? <==> text == "}")
  {
    hide Trimmed, Words, Says, Quoted;
    SaysOne(raw, lead, text, semis, trail);
    assert "lease "[0] == 'l' && "hardware ethernet "[0] == 'h' && "client-hostname "[0] == 'c' && "}"[0] == '}';
    assert |text| >= 6 && text[..6] == "lease " ==> text[0] == 'l';
    assert |text| >= 18 && text[..18] == "hardware ethernet " ==> text[0] == 'h';
    assert |text| >= 16 && text[..16] == "client-hostname " ==> text[0] == 'c';
  }

  /** A block closes on a brace, whitespace around it and semicolons right behind it, and on nothing else. */
  lemma {:induction false} ClosingIff(raw: string, lower: string -> string)
    ensures KindOf(raw, lower) == Closing <==>
            exists lead, semis, trail ::
              raw == lead + "}" + semis + trail && AllSpace(lead) && AllSemicolons(semis) && AllSpace(trail)
  {
    hide KindOf, Trimmed, AllSpace, AllSemicolons;
    var lead, semis, trail := LineSays(raw);
    LineMeans(raw, lower, lead, Trimmed(raw), semis, trail);
    assert raw == lead + Trimmed(raw) + semis + trail;
    forall lead: string, semis: string, trail: string |
      raw == lead + "}" + semis + trail && AllSpace(lead) && AllSemicolons(semis) && AllSpace(trail)
      ensures KindOf(raw, lower) == Closing
    {
      BraceSays(raw, lead, semis, trail);
      LineMeans(raw, lower, lead, "}", semis, trail);
    }
  }

  lemma {:induction false} BraceSays(raw: string, lead: string, semis: string, trail: string)
    requires raw == lead + "}" + semis + trail && AllSpace(lead) && AllSemicolons(semis) && AllSpace(trail)
    ensures Says(raw, lead, "}", semis, trail)
  {
    var core := "}" + semis;
    assert raw == lead + core + trail;
    assert semis != [] ==> semis[|semis| - 1] in semis;
    assert !IsSpace('}') && !IsSpace(';');
  }

  /** Whitespace at the end of a line is dropped before its semicolons. */
  lemma {:induction false} TrailingSpace(raw: string, space: string)
    requires raw != [] && !IsSpace(raw[0]) && forall c :: c in space ==> IsSpace(c)
    ensures Trimmed(raw + space) == Trimmed(raw)
  {
    if space == [] {
      assert raw + space == raw;
    } else {
      var n := |space| - 1;
      assert space == space[..n] + [space[n]] && space[n] in space;
      TrailingSpace(raw, space[..n]);
      assert (raw + space)[..|raw + space| - 1] == raw + space[..n];
      assert StripLeft(raw + space) == raw + space && StripLeft(raw + space[..n]) == raw + space[..n];
      assert StripLeft(raw) == raw;
    }
  }

  /** Of several words on a hardware line the last one is the address. */
  lemma {:induction false} HardwareTakesLast(u: string, w: string, lower: string -> string)
    requires IsWord(u) && IsWord(w) && w[|w| - 1] != ';'
    ensures KindOf("hardware ethernet " + u + " " + w, lower) == Hardware(lower(w))
  {
    hide Words, Trimmed;
    var line := "hardware ethernet " + u + " " + w;
    TwoWordsTrimmed(u, w);
    TwoWords(u, w);
    assert line[..18] == "hardware ethernet " && "lease "[0] == 'l';
  }

  lemma {:induction false} TwoWordsTrimmed(u: string, w: string)
    requires IsWord(u) && IsWord(w) && w[|w| - 1] != ';'
    ensures var line := "hardware ethernet " + u + " " + w; Trimmed(line) == line
  {
    hide Trimmed;
    var line := "hardware ethernet " + u + " " + w;
    assert w[|w| - 1] in w && !IsSpace('h');
    assert [] + line + [] == line;
    TrimmedLine([], line, []);
  }

  lemma {:induction false} TwoWords(u: string, w: string)
    requires IsWord(u) && IsWord(w)
    ensures Words("hardware ethernet " + u + " " + w) == ["hardware", "ethernet", u, w]
  {
    hide Words;
    assert "hardware ethernet " + u + " " + w == "hardware" + " " + ("ethernet" + " " + (u + " " + w));
    WordsCons("hardware", "ethernet" + " " + (u + " " + w));
    WordsCons("ethernet", u + " " + w);
    WordsCons(u, w);
    WordsCons(w, []);
  }

  /** A client-hostname line without quotation marks names nobody. */
  lemma {:induction false} UnquotedNamesNobody(name: string, lower: string -> string)
    requires IsWord(name) && '"' !in name && name[|name| - 1] != ';'
    ensures KindOf("client-hostname " + name, lower) == ClientName(None)
  {
    hide Words, Trimmed;
    var line := "client-hostname " + name;
    assert name[|name| - 1] in name && !IsSpace('c');
    assert [] + line + [] == line;
    TrimmedLine([], line, []);
    assert line[..16] == "client-hostname ";
    assert "lease "[0] == 'l' && "hardware ethernet "[0] == 'h' && line[0] == 'c';
    assert forall i :: 0 <= i < |line| ==> line[i] == (if i < 16 then "client-hostname "[i] else name[i - 16]);
    assert '"' !in "client-hostname ";
    assert forall i :: 0 <= i < |line| ==> line[i] != '"';
  }

  /**
   * The parser raises on a line exactly when, trimmed, it reads "lease " with nothing but whitespace after it;
   * trailing whitespace is stripped first, so this takes a semicolon, as in "lease ;".
   */
  lemma {:induction false} MissingAddressIff(raw: string, lower: string -> string)
    ensures KindOf(raw, lower) == Opening(None) <==>
            var line := Trimmed(raw);
            "lease " <= line && forall c :: c in line[6..] ==> IsSpace(c)
  {
    var line := Trimmed(raw);
    if "lease " <= line {
      assert line == "lease" + " " + line[6..];
      WordsCons("lease", line[6..]);
    }
  }

  lemma {:induction false} MissingAddressWitness(lower: string -> string)
    ensures KindOf("lease ;", lower) == Opening(None)
  {
    assert [] + "lease ;" == "lease ;";
    StripPad([], "lease ;");
    assert !IsSpace(';') && StripRight("lease ;") == "lease ;";
    assert "lease ;" == "lease " + ";";
    DropTail("lease ", ";");
    MissingAddressIff("lease ;", lower);
  }

  /** The parser meets such lines: a file with this one and a brace is taken for an ISC file, and reading it raises. */
  lemma {:induction false} ParserRaises(lower: string -> string)
    ensures Parsed(["lease ;", "{"], lower) == Err(MissingAddress)
  {
    hide KindOf, Contains;
    var lines := ["lease ;", "{"];
    MissingAddressWitness(lower);
    assert KindsOf(lines, lower)[0] == Opening(None);
    assert "lease ;"[0..][..6] == "lease " && "{"[0..] == "{";
    ContainsAt("lease ;", "lease ", 0);
    ContainsAt("{", "{", 0);
    assert lines[0] in lines && lines[1] in lines;
  }

  // ---- The round trip ----

  /** One lease as dhcpd prints it, among any other lines. */
  datatype Printing = Printing(
    lease: Lease,
    gap: seq<string>,
    afterOpening: seq<string>,
    afterHardware: seq<string>,
    afterName: seq<string>)

  function HardwareLines(l: Lease): seq<string> {
    if l.mac == "" then [] else [HardwareLine(l.mac)]
  }

  function NameLines(l: Lease): seq<string> {
    if l.hostname.Some? then [NameLine(l.hostname.value)] else []
  }

  function BodyOf(p: Printing): seq<string> {
    p.afterOpening + HardwareLines(p.lease) + p.afterHardware + NameLines(p.lease) + p.afterName
  }

  function Print(p: Printing): seq<string> {
    p.gap + [OpeningLine(p.lease.ip)] + BodyOf(p) + ["}"]
  }

  function FileOf(ps: seq<Printing>): seq<string> {
    FlatMap(ps, Print)
  }

  function LeasesOf(ps: seq<Printing>): (r: seq<Lease>)
    ensures |r| == |ps| && forall i :: 0 <= i < |r| ==> r[i] == ps[i].lease
  {
    if ps == [] then [] else LeasesOf(ps[..|ps| - 1]) + [ps[|ps| - 1].lease]
  }

  /** What dhcpd can write: one-word addresses, names without quotation marks, and other lines of no meaning. */
  ghost predicate Printable(p: Printing, lower: string -> string) {
    var l := p.lease;
    && IsWord(l.ip)
    && (l.mac != "" ==> IsWord(l.mac) && l.mac[|l.mac| - 1] != ';' && lower(l.mac) == l.mac)
    && (l.hostname.Some? ==> '"' !in l.hostname.value)
    && Plain(KindsOf(p.gap, lower)) && Plain(KindsOf(p.afterOpening, lower))
    && Plain(KindsOf(p.afterHardware, lower)) && Plain(KindsOf(p.afterName, lower))
  }

  lemma {:induction false} KindsOfConcat(a: seq<string>, b: seq<string>, lower: string -> string)
    ensures KindsOf(a + b, lower) == KindsOf(a, lower) + KindsOf(b, lower)
  {
    hide KindOf;
  }

  /** A printed body spells its lease. */
  lemma {:induction false} PrintedBody(p: Printing, lower: string -> string)
    requires Printable(p, lower)
    ensures var body := KindsOf(BodyOf(p), lower);
            && (forall i :: 0 <= i < |body| ==> !body[i].Opening? && !body[i].Closing?)
            && LeaseSince([Opening(Some(p.lease.ip))] + body, 0) == p.lease
  {
    hide KindOf, HardwareLine, NameLine, KindsOf, MacSince, NameSince, OpenAt, Blocks;
    var open := [Opening(Some(p.lease.ip))];
    var a, b, c := KindsOf(p.afterOpening, lower), KindsOf(p.afterHardware, lower), KindsOf(p.afterName, lower);
    var hw, nm := KindsOf(HardwareLines(p.lease), lower), KindsOf(NameLines(p.lease), lower);
    KindsOfConcat(p.afterOpening, HardwareLines(p.lease), lower);
    KindsOfConcat(p.afterOpening + HardwareLines(p.lease), p.afterHardware, lower);
    KindsOfConcat(p.afterOpening + HardwareLines(p.lease) + p.afterHardware, NameLines(p.lease), lower);
    KindsOfConcat(p.afterOpening + HardwareLines(p.lease) + p.afterHardware + NameLines(p.lease), p.afterName, lower);
    assert KindsOf(BodyOf(p), lower) == a + hw + b + nm + c;
    HardwareKinds(p, lower);
    NameKinds(p, lower);
    SpelledLease(p.lease, a, b, c);
    assert open + (a + hw + b + nm + c) == open + a + hw + b + nm + c;
  }

  function HardwareSpelling(l: Lease): seq<LineKind> {
    if l.mac == "" then [] else [Hardware(l.mac)]
  }

  function NameSpelling(l: Lease): seq<LineKind> {
    if l.hostname.Some? then [ClientName(l.hostname)] else []
  }

  lemma {:induction false} HardwareKinds(p: Printing, lower: string -> string)
    requires Printable(p, lower)
    ensures KindsOf(HardwareLines(p.lease), lower) == HardwareSpelling(p.lease)
  {
    hide KindOf, HardwareLine;
    if p.lease.mac != "" {
      HardwareLineKind(p.lease.mac, lower);
    }
  }

  lemma {:induction false} NameKinds(p: Printing, lower: string -> string)
    requires Printable(p, lower)
    ensures KindsOf(NameLines(p.lease), lower) == NameSpelling(p.lease)
  {
    hide KindOf, NameLine;
    if p.lease.hostname.Some? {
      NameLineKind(p.lease.hostname.value, lower);
    }
  }

  lemma {:induction false} SpelledLease(l: Lease, a: seq<LineKind>, b: seq<LineKind>, c: seq<LineKind>)
    requires Plain(a) && Plain(b) && Plain(c)
    ensures LeaseSince([Opening(Some(l.ip))] + a + HardwareSpelling(l) + b + NameSpelling(l) + c, 0) == l
  {
    hide MacSince, NameSince;
    var open := [Opening(Some(l.ip))];
    var k1 := open + a;
    var k2 := k1 + HardwareSpelling(l);
    var k3 := k2 + b;
    var k4 := k3 + NameSpelling(l);
    JustOpened(l.ip);
    PlainSince(open, a, 0);
    if l.mac == "" {
      assert k2 == k1;
    } else {
      OneMoreLine(k1, Hardware(l.mac), 0);
    }
    PlainSince(k2, b, 0);
    if l.hostname.None? {
      assert k4 == k3;
    } else {
      OneMoreLine(k3, ClientName(l.hostname), 0);
    }
    PlainSince(k4, c, 0);
  }

  lemma JustOpened(ip: string)
    ensures MacSince([Opening(Some(ip))], 0) == "" && NameSince([Opening(Some(ip))], 0) == None
  {
  }

  /** What dhcpd printed is read back block by block, whatever other lines stand between and inside the blocks. */
  lemma {:induction false} PrintedBlocks(ps: seq<Printing>, lower: string -> string)
    requires forall i :: 0 <= i < |ps| ==> Printable(ps[i], lower)
    ensures var kinds := KindsOf(FileOf(ps), lower);
            AllAddressed(kinds) && Blocks(kinds) == LeasesOf(ps)
  {
    hide KindOf, KindsOf, Printable, LeaseSince, OpeningLine, BodyOf, MacSince, NameSince, OpenAt;
    if ps == [] {
      NoLines(lower);
    } else {
      var n := |ps| - 1;
      var p := ps[n];
      PrintedBlocks(ps[..n], lower);
      var before := KindsOf(FileOf(ps[..n]), lower);
      KindsOfConcat(FileOf(ps[..n]), Print(p), lower);
      PrintedOne(p, lower);
      GapIsPlain(p, lower);
      PlainLines(before, KindsOf(p.gap, lower));
      PrintedBody(p, lower);
      BlockStandsAlone(before + KindsOf(p.gap, lower), p.lease.ip, KindsOf(BodyOf(p), lower));
      assert before + (KindsOf(p.gap, lower) + [Opening(Some(p.lease.ip))] + KindsOf(BodyOf(p), lower) + [Closing])
          == before + KindsOf(p.gap, lower) + [Opening(Some(p.lease.ip))] + KindsOf(BodyOf(p), lower) + [Closing];
    }
  }

  lemma NoLines(lower: string -> string)
    ensures KindsOf([], lower) == []
  {
  }

  lemma GapIsPlain(p: Printing, lower: string -> string)
    requires Printable(p, lower)
    ensures Plain(KindsOf(p.gap, lower))
  {
  }

  lemma {:induction false} PrintedOne(p: Printing, lower: string -> string)
    requires Printable(p, lower)
    ensures KindsOf(Print(p), lower) ==
            KindsOf(p.gap, lower) + [Opening(Some(p.lease.ip))] + KindsOf(BodyOf(p), lower) + [Closing]
  {
    hide KindOf, OpeningLine, BodyOf;
    KindsOfConcat(p.gap, [OpeningLine(p.lease.ip)], lower);
    KindsOfConcat(p.gap + [OpeningLine(p.lease.ip)], BodyOf(p), lower);
    KindsOfConcat(p.gap + [OpeningLine(p.lease.ip)] + BodyOf(p), ["}"], lower);
    OpeningLineKind(p.lease.ip, lower);
    ClosingLineKind(lower);
  }

  lemma {:induction false} ContainsAt(s: string, needle: string, i: nat)
    requires i <= |s| && needle <= s[i..]
    ensures Contains(s, needle)
  {
    assert s[i..i + |needle|] == s[i..][..|needle|];
    assert StandsAt(s, needle, i);
    ContainsIff(s, needle);
  }

  lemma {:induction false} PrintedLine(ps: seq<Printing>, i: nat)
    requires i < |ps|
    ensures OpeningLine(ps[i].lease.ip) in FileOf(ps)
  {
    var n := |ps| - 1;
    if i == n {
      assert Print(ps[n])[|ps[n].gap|] == OpeningLine(ps[n].lease.ip);
    } else {
      PrintedLine(ps[..n], i);
    }
  }

  /**
   * Reading a printed lease file: the format is recognised, and the result is one lease per address, the last one
   * printed for it, in the order the addresses first appeared; with distinct addresses it is the list itself.
   */
  lemma {:induction false} LeaseRoundTrip(ps: seq<Printing>, lower: string -> string)
    requires forall i :: 0 <= i < |ps| ==> Printable(ps[i], lower)
    ensures Parsed(FileOf(ps), lower) == Ok(PutAll([], LeasesOf(ps), LeaseIp))
    ensures Distinct(LeasesOf(ps), LeaseIp) <==> Parsed(FileOf(ps), lower) == Ok(LeasesOf(ps))
  {
    hide KindsOf, Printable, FileOf, LooksLikeIsc, AllAddressed, Blocks, LeasesOf, PutAll, DnsmasqLeases;
    PrintedBlocks(ps, lower);
    OneLeasePerAddress(LeasesOf(ps));
    if ps == [] {
      NothingListed(lower);
    } else {
      FileIsRecognised(ps);
    }
    if Distinct(LeasesOf(ps), LeaseIp) {
      PutAllDistinctFromEmpty(LeasesOf(ps), LeaseIp);
    }
  }

  lemma NothingListed(lower: string -> string)
    ensures Parsed(FileOf([]), lower) == Ok([]) && LeasesOf([]) == [] && PutAll([], [], LeaseIp) == []
  {
  }

  lemma {:induction false} FileIsRecognised(ps: seq<Printing>)
    requires ps != []
    ensures LooksLikeIsc(FileOf(ps))
  {
    hide OpeningLine, FileOf, Contains;
    PrintedLine(ps, 0);
    OpeningIsRecognised(ps[0].lease.ip);
  }

  lemma {:induction false} OpeningIsRecognised(ip: string)
    ensures Contains(OpeningLine(ip), "lease ") && Contains(OpeningLine(ip), "{")
  {
    var line := OpeningLine(ip);
    assert line[0..][..6] == "lease ";
    ContainsAt(line, "lease ", 0);
    assert line[|line| - 1..] == "{";
    ContainsAt(line, "{", |line| - 1);
  }

  // ---- dnsmasq ----

  /** `<expiry> <mac> <ip> <hostname or *> <client-id>` */
  function DnsmasqLine(expiry: nat, l: Lease, client: string): string {
    NatDecimal(expiry) + " " + l.mac + " " + l.ip + " " + l.hostname.GetOr("*") + " " + client
  }

  ghost predicate DnsmasqPrintable(l: Lease, client: string, lower: string -> string) {
    && IsWord(l.mac) && ':' in l.mac && lower(l.mac) == l.mac && IsWord(l.ip) && IsWord(client)
    && (l.hostname.Some? ==> IsWord(l.hostname.value) && l.hostname.value != "*")
  }

  lemma {:induction false} DnsmasqLineWords(expiry: nat, l: Lease, client: string, lower: string -> string)
    requires DnsmasqPrintable(l, client, lower)
    ensures Words(DnsmasqLine(expiry, l, client)) ==
            [NatDecimal(expiry), l.mac, l.ip, l.hostname.GetOr("*"), client]
  {
    hide Words, NatDecimal;
    var e, name := NatDecimal(expiry), l.hostname.GetOr("*");
    assert IsWord(e) && IsWord(name);
    var r3 := name + " " + client;
    var r2 := l.ip + " " + r3;
    var r1 := l.mac + " " + r2;
    assert DnsmasqLine(expiry, l, client) == e + " " + r1;
    WordsCons(e, r1);
    WordsCons(l.mac, r2);
    WordsCons(l.ip, r3);
    WordsCons(name, client);
    WordsCons(client, []);
  }

  lemma {:induction false} DnsmasqLineReads(expiry: nat, l: Lease, client: string, lower: string -> string)
    requires DnsmasqPrintable(l, client, lower)
    ensures DnsmasqLease(DnsmasqLine(expiry, l, client), lower) == [l]
  {
    hide Words, DnsmasqLine;
    DnsmasqLineWords(expiry, l, client, lower);
  }

  /** Four words make a dnsmasq lease, the client id is not needed; fewer, or no colon in the second, make none. */
  lemma {:induction false} DnsmasqLineIff(line: string, lower: string -> string)
    ensures var w := Words(line);
            if |w| >= 4 && ':' in w[1]
            then DnsmasqLease(line, lower) == [Lease(lower(w[1]), w[2], if w[3] == "*" then None else Some(w[3]))]
            else DnsmasqLease(line, lower) == []
  {
  }

  lemma {:induction false} StripRightKeepsFirst(s: string)
    requires s != [] && !IsSpace(s[0])
    ensures StripRight(s) != [] && StripRight(s)[0] == s[0]
  {
    if IsSpace(s[|s| - 1]) {
      StripRightKeepsFirst(s[..|s| - 1]);
    }
  }

  lemma {:induction false} DropSemicolonsKeepsFirst(s: string)
    requires s != [] && s[0] != ';'
    ensures DropSemicolons(s) != [] && DropSemicolons(s)[0] == s[0]
  {
    if s[|s| - 1] == ';' {
      DropSemicolonsKeepsFirst(s[..|s| - 1]);
    }
  }

  /** A line starting with a digit means nothing to the ISC parser. */
  lemma {:induction false} DigitLineIsPlain(line: string, lower: string -> string)
    requires line != [] && '0' <= line[0] <= '9'
    ensures KindOf(line, lower) == Other
  {
    hide Words, Quoted;
    StripRightKeepsFirst(line);
    DropSemicolonsKeepsFirst(StripRight(line));
    assert Trimmed(line)[0] == line[0];
    assert "lease "[0] == 'l' && "hardware ethernet "[0] == 'h' && "client-hostname "[0] == 'c' && "}"[0] == '}';
  }

  lemma {:induction false} NothingInPlain(kinds: seq<LineKind>)
    requires Plain(kinds)
    ensures AllAddressed(kinds) && Blocks(kinds) == []
  {
    if kinds != [] {
      NothingInPlain(kinds[..|kinds| - 1]);
    }
  }

  function DnsmasqFile(ls: seq<Lease>, expiries: seq<nat>, clients: seq<string>): (r: seq<string>)
    requires |ls| == |expiries| == |clients|
    ensures |r| == |ls| && forall i :: 0 <= i < |r| ==> r[i] == DnsmasqLine(expiries[i], ls[i], clients[i])
  {
    seq(|ls|, i requires 0 <= i < |ls| => DnsmasqLine(expiries[i], ls[i], clients[i]))
  }

  lemma {:induction false} LinesRead(lines: seq<string>, ls: seq<Lease>, lower: string -> string)
    requires |lines| == |ls| && forall i :: 0 <= i < |ls| ==> DnsmasqLease(lines[i], lower) == [ls[i]]
    ensures DnsmasqLeases(lines, lower) == ls
  {
    hide DnsmasqLease;
    if lines != [] {
      var n := |lines| - 1;
      LinesRead(lines[..n], ls[..n], lower);
      assert ls == ls[..n] + [ls[n]];
    }
  }

  /**
   * A printed dnsmasq file is read back whole, repeated addresses included - unless it happens to contain both
   * "lease " and "{": then it is taken for an ISC file, in which no dnsmasq line means anything, and nothing is read.
   */
  lemma {:induction false} DnsmasqRoundTripIff(
      ls: seq<Lease>, expiries: seq<nat>, clients: seq<string>, lower: string -> string)
    requires |ls| == |expiries| == |clients|
    requires forall i :: 0 <= i < |ls| ==> DnsmasqPrintable(ls[i], clients[i], lower)
    ensures var lines := DnsmasqFile(ls, expiries, clients);
            && (Parsed(lines, lower) == Ok(ls) <==> ls == [] || !LooksLikeIsc(lines))
            && (LooksLikeIsc(lines) ==> Parsed(lines, lower) == Ok([]))
  {
    hide DnsmasqLine, DnsmasqLease, DnsmasqLeases, KindOf, LooksLikeIsc, Blocks;
    var lines := DnsmasqFile(ls, expiries, clients);
    forall i | 0 <= i < |ls|
      ensures DnsmasqLease(lines[i], lower) == [ls[i]] && KindOf(lines[i], lower) == Other
    {
      DnsmasqLineReads(expiries[i], ls[i], clients[i], lower);
      StartsWithDigit(expiries[i], ls[i], clients[i]);
      DigitLineIsPlain(lines[i], lower);
    }
    LinesRead(lines, ls, lower);
    NothingInPlain(KindsOf(lines, lower));
  }

  lemma {:induction false} StartsWithDigit(expiry: nat, l: Lease, client: string)
    ensures var line := DnsmasqLine(expiry, l, client); line != [] && '0' <= line[0] <= '9'
  {
    assert NatDecimal(expiry)[0] in NatDecimal(expiry);
    assert DnsmasqLine(expiry, l, client)[0] == NatDecimal(expiry)[0];
  }

  /** The words "lease " and "{" stand somewhere in the file, each on a line of its own or on one line. */
  ghost predicate ShowsIscMarks(lines: seq<string>) {
    && (exists l, i: nat :: l in lines && StandsAt(l, "lease ", i))
    && (exists l :: l in lines && '{' in l)
  }

  /** The format is detected by exactly these marks, so a dnsmasq file without a brace is always read. */
  lemma {:induction false} DetectionIff(lines: seq<string>, lower: string -> string)
    ensures Parsed(lines, lower) ==
            if !ShowsIscMarks(lines) then Ok(DnsmasqLeases(lines, lower))
            else if AllAddressed(KindsOf(lines, lower)) then Ok(PutAll([], Blocks(KindsOf(lines, lower)), LeaseIp))
            else Err(MissingAddress)
  {
    hide KindsOf, Blocks, DnsmasqLeases, Contains, StandsAt;
    forall l
      ensures Contains(l, "lease ") <==> exists i: nat :: StandsAt(l, "lease ", i)
      ensures Contains(l, "{") <==> '{' in l
    {
      ContainsIff(l, "lease ");
      BraceIff(l);
    }
  }

  lemma {:induction false} BraceIff(l: string)
    ensures Contains(l, "{") <==> '{' in l
  {
    ContainsIff(l, "{");
    if i: nat :| StandsAt(l, "{", i) {
      assert l[i] == l[i..i + 1][0];
    }
    if '{' in l {
      var i :| 0 <= i < |l| && l[i] == '{';
      assert l[i..i + 1] == "{";
      assert StandsAt(l, "{", i);
    }
  }

  /** Such a file: a client named "release" whose client id is a brace. */
  lemma {:induction false} DnsmasqMistaken(lower: string -> string)
    requires lower("aa:bb") == "aa:bb"
    ensures var l := Lease("aa:bb", "10.0.0.2", Some("release"));
            DnsmasqPrintable(l, "{", lower) && LooksLikeIsc(DnsmasqFile([l], [0], ["{"]))
  {
    hide DnsmasqLine, Contains;
    var l := Lease("aa:bb", "10.0.0.2", Some("release"));
    assert "aa:bb"[2] == ':';
    MistakenLine(l);
    assert DnsmasqFile([l], [0], ["{"])[0] == DnsmasqLine(0, l, "{");
  }

  lemma {:induction false} MistakenLine(l: Lease)
    requires l == Lease("aa:bb", "10.0.0.2", Some("release"))
    ensures var line := DnsmasqLine(0, l, "{"); Contains(line, "lease ") && Contains(line, "{")
  {
    hide Contains;
    var line := DnsmasqLine(0, l, "{");
    assert line == "0 aa:bb 10.0.0.2 release {";
    assert line[19..][..6] == "lease ";
    ContainsAt(line, "lease ", 19);
    assert line[25..] == "{";
    ContainsAt(line, "{", 25);
  }
}
