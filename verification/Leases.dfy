/** DHCP lease files: the line-driven parsers for the ISC and dnsmasq formats. */
module Leases {
  import opened Flattening
  import opened KeyedLists
  import opened Text
  import opened Wrappers

  /** One `(mac, ip, hostname)` tuple. */
  datatype Lease = Lease(mac: string, ip: string, hostname: Option<string>)

  function LeaseIp(l: Lease): string { l.ip }

  // ---- Strings ----

  /** The characters `str.strip()` and `str.split()` treat as whitespace. */
  predicate IsSpace(c: char) {
    var n := c as int;
    || 9 <= n <= 13 || 28 <= n <= 32 || n == 0x85 || n == 0xA0 || n == 0x1680 || 0x2000 <= n <= 0x200A
    || n == 0x2028 || n == 0x2029 || n == 0x202F || n == 0x205F || n == 0x3000
  }

  function StripLeft(s: string): (r: string)
    ensures |r| <= |s| && (r != [] ==> !IsSpace(r[0]))
  {
    if s != [] && IsSpace(s[0]) then StripLeft(s[1..]) else s
  }

  function StripRight(s: string): string {
    if s != [] && IsSpace(s[|s| - 1]) then StripRight(s[..|s| - 1]) else s
  }

  /** `s.rstrip(";")` */
  function DropSemicolons(s: string): string {
    if s != [] && s[|s| - 1] == ';' then DropSemicolons(s[..|s| - 1]) else s
  }

  /** The end of the word `s` starts with. */
  function WordEnd(s: string): (n: nat)
    ensures n <= |s| && (forall i :: 0 <= i < n ==> !IsSpace(s[i])) && (n < |s| ==> IsSpace(s[n]))
  {
    if s == [] || IsSpace(s[0]) then 0 else 1 + WordEnd(s[1..])
  }

  /** `s.split()` */
  function Words(s: string): (r: seq<string>)
    ensures r == [] <==> forall c :: c in s ==> IsSpace(c)
  {
    if s == [] then []
    else if IsSpace(s[0]) then
      assert s == [s[0]] + s[1..];
      Words(s[1..])
    else
      assert s[0] in s;
      [s[..WordEnd(s)]] + Words(s[WordEnd(s)..])
  }

  /** The position of the first quotation mark, or the length. */
  function Quote(s: string): (n: nat)
    ensures n <= |s| && (forall i :: 0 <= i < n ==> s[i] != '"') && (n < |s| ==> s[n] == '"')
  {
    if s == [] || s[0] == '"' then 0 else 1 + Quote(s[1..])
  }

  /** `s.split('"')[1] if '"' in s else None` */
  function Quoted(s: string): Option<string> {
    if Quote(s) == |s| then None
    else
      var rest := s[Quote(s) + 1..];
      Some(rest[..Quote(rest)])
  }

  // ---- ISC dhcpd ----

  /** What a line means; a lease line may lack its address, which makes the parser raise `IndexError`. */
  datatype LineKind =
    | Opening(ip: Option<string>)
    | Hardware(mac: string)
    | ClientName(hostname: Option<string>)
    | Closing
    | Other

  function Trimmed(raw: string): string {
    DropSemicolons(StripRight(StripLeft(raw)))
  }

  function KindOf(raw: string, lower: string -> string): LineKind {
    var line := Trimmed(raw);
    if "lease " <= line then
      var words := Words(line);
      Opening(if |words| < 2 then None else Some(words[1]))
    else if "hardware ethernet " <= line then
      assert line[0] in line && !IsSpace(line[0]);
      Hardware(lower(Words(line)[|Words(line)| - 1]))
    else if "client-hostname " <= line then ClientName(Quoted(line))
    else if line == "}" then Closing
    else Other
  }

  function KindsOf(lines: seq<string>, lower: string -> string): (r: seq<LineKind>)
    ensures |r| == |lines| && forall i :: 0 <= i < |r| ==> r[i] == KindOf(lines[i], lower)
  {
    seq(|lines|, i requires 0 <= i < |lines| => KindOf(lines[i], lower))
  }

  datatype LeaseError = MissingAddress

  /** The line of the block that is open after `kinds`, if one is: a lease line, with no lease or closing line since. */
  function OpenAt(kinds: seq<LineKind>): (r: Option<nat>)
    ensures r.Some? ==> r.value < |kinds| && kinds[r.value].Opening?
    ensures forall i :: (if r.Some? then r.value else |kinds|) < i < |kinds| ==>
              !kinds[i].Opening? && !kinds[i].Closing?
  {
    if kinds == [] then None
    else
      var n := |kinds| - 1;
      match kinds[n]
      case Opening(_) => Some(n)
      case Closing => None
      case _ => OpenAt(kinds[..n])
  }

  /** The address of the last hardware line after line `start`, or "". */
  function MacSince(kinds: seq<LineKind>, start: nat): string
    requires start < |kinds|
  {
    var n := |kinds| - 1;
    if n == start then ""
    else if kinds[n].Hardware? then kinds[n].mac
    else MacSince(kinds[..n], start)
  }

  /** What the last client-hostname line after line `start` says, or nothing. */
  function NameSince(kinds: seq<LineKind>, start: nat): Option<string>
    requires start < |kinds|
  {
    var n := |kinds| - 1;
    if n == start then None
    else if kinds[n].ClientName? then kinds[n].hostname
    else NameSince(kinds[..n], start)
  }

  /** The lease of the block opened on line `start` and not closed yet: only its own lines have a say. */
  function LeaseSince(kinds: seq<LineKind>, start: nat): Lease
    requires start < |kinds| && kinds[start].Opening? && kinds[start].ip.Some?
  {
    Lease(MacSince(kinds, start), kinds[start].ip.value, NameSince(kinds, start))
  }

  ghost predicate AllAddressed(kinds: seq<LineKind>) {
    forall i :: 0 <= i < |kinds| && kinds[i].Opening? ==> kinds[i].ip.Some?
  }

  /** The closed blocks of a file, in order: the independent reading of the format. */
  function Blocks(kinds: seq<LineKind>): seq<Lease>
    requires AllAddressed(kinds)
  {
    if kinds == [] then []
    else
      var n := |kinds| - 1;
      var start := OpenAt(kinds[..n]);
      Blocks(kinds[..n]) + if kinds[n].Closing? && start.Some? then [LeaseSince(kinds[..n], start.value)] else []
  }

  /** One more line, seen by everything the format defines. */
  lemma {:induction false} OneMoreLine(kinds: seq<LineKind>, x: LineKind, start: nat)
    requires start < |kinds|
    ensures MacSince(kinds + [x], start) == if x.Hardware? then x.mac else MacSince(kinds, start)
    ensures NameSince(kinds + [x], start) == if x.ClientName? then x.hostname else NameSince(kinds, start)
  {
    assert (kinds + [x])[..|kinds|] == kinds;
  }

  lemma {:induction false} OneMoreBlock(kinds: seq<LineKind>, x: LineKind)
    requires AllAddressed(kinds) && (x.Opening? ==> x.ip.Some?)
    ensures AllAddressed(kinds + [x])
    ensures Blocks(kinds + [x]) ==
            Blocks(kinds) +
            if x.Closing? && OpenAt(kinds).Some? then [LeaseSince(kinds, OpenAt(kinds).value)] else []
  {
    assert (kinds + [x])[..|kinds|] == kinds;
  }

  lemma {:induction false} OpenAfter(kinds: seq<LineKind>, x: LineKind)
    ensures OpenAt(kinds + [x]) == if x.Opening? then Some(|kinds|) else if x.Closing? then None else OpenAt(kinds)
  {
    assert (kinds + [x])[..|kinds|] == kinds;
  }

  lemma JustOpenedAt(kinds: seq<LineKind>, x: LineKind)
    ensures MacSince(kinds + [x], |kinds|) == "" && NameSince(kinds + [x], |kinds|) == None
  {
  }

  lemma NothingRead()
    ensures Blocks([]) == [] && OpenAt([]) == None
  {
  }

  method ParseIscLeases(lines: seq<string>, lower: string -> string) returns (r: Result<seq<Lease>, LeaseError>)
    ensures var kinds := KindsOf(lines, lower);
            r == if AllAddressed(kinds) then Ok(PutAll([], Blocks(kinds), LeaseIp)) else Err(MissingAddress)
  {
    hide KindOf, Blocks, OpenAt, MacSince, NameSince;
    ghost var kinds := KindsOf(lines, lower);
    NothingRead();
    assert kinds[..0] == [];
    var byIp: seq<Lease> := [];
    var ip: Option<string> := None;
    var mac := "";
    var hostname: Option<string> := None;
    for i := 0 to |lines|
      invariant AllAddressed(kinds[..i])
      invariant byIp == PutAll([], Blocks(kinds[..i]), LeaseIp)
      invariant ip.Some? <==> OpenAt(kinds[..i]).Some?
      invariant ip.Some? ==> Lease(mac, ip.value, hostname) == LeaseSince(kinds[..i], OpenAt(kinds[..i]).value)
    {
      var kind := KindOf(lines[i], lower);
      ghost var read, before := kinds[..i], Blocks(kinds[..i]);
      assert before + [] == before && kinds[i] == kind;
      assert kinds[..i + 1] == read + [kind];
      OpenAfter(read, kind);
      if ip.Some? {
        OneMoreLine(read, kind, OpenAt(read).value);
      }
      match kind {
        case Opening(address) =>
          if address.None? {
            return Err(MissingAddress);
          }
          OneMoreBlock(read, kind);
          JustOpenedAt(read, kind);
          ip, mac, hostname := address, "", None;
        case Hardware(m) =>
          OneMoreBlock(read, kind);
          mac := m;
        case ClientName(h) =>
          OneMoreBlock(read, kind);
          hostname := h;
        case Closing =>
          OneMoreBlock(read, kind);
          if ip.Some? {
            ghost var lease := Lease(mac, ip.value, hostname);
            assert (before + [lease])[..|before|] == before;
            byIp := Upsert(byIp, Lease(mac, ip.value, hostname), LeaseIp, TakeNew);
            ip := None;
          }
        case Other =>
          OneMoreBlock(read, kind);
      }
    }
    assert kinds[..|lines|] == kinds;
    r := Ok(byIp);
  }

  // ---- dnsmasq ----

  /** The lease on a dnsmasq line: at least four words, the second of which looks like a MAC address. */
  function DnsmasqLease(line: string, lower: string -> string): seq<Lease> {
    var parts := Words(line);
    if |parts| < 4 || ':' !in parts[1] then []
    else [Lease(lower(parts[1]), parts[2], if parts[3] == "*" then None else Some(parts[3]))]
  }

  function DnsmasqLeases(lines: seq<string>, lower: string -> string): seq<Lease> {
    FlatMap(lines, line => DnsmasqLease(line, lower))
  }

  method ParseDnsmasqLeases(lines: seq<string>, lower: string -> string) returns (out: seq<Lease>)
    ensures out == DnsmasqLeases(lines, lower)
  {
    ghost var f := line => DnsmasqLease(line, lower);
    out := [];
    assert lines[..0] == [];
    for i := 0 to |lines|
      invariant out == FlatMap(lines[..i], f)
    {
      assert lines[..i + 1][..i] == lines[..i] && lines[..i + 1][i] == lines[i];
      assert FlatMap(lines[..i + 1], f) == FlatMap(lines[..i], f) + f(lines[i]);
      var parts := Words(lines[i]);
      if |parts| < 4 {
        continue;
      }
      var mac, ip, name := parts[1], parts[2], parts[3];
      if ':' !in mac {
        continue;
      }
      out := out + [Lease(lower(mac), ip, if name == "*" then None else Some(name))];
    }
    assert lines[..|lines|] == lines;
  }

  // ---- Format detection ----

  /** `"lease " in text and "{" in text`; neither contains a line break, so the lines are searched one by one. */
  predicate LooksLikeIsc(lines: seq<string>) {
    && (exists line :: line in lines && Contains(line, "lease "))
    && (exists line :: line in lines && Contains(line, "{"))
  }

  method ParseLeases(lines: seq<string>, lower: string -> string) returns (r: Result<seq<Lease>, LeaseError>)
    ensures r == Parsed(lines, lower)
  {
    if LooksLikeIsc(lines) {
      r := ParseIscLeases(lines, lower);
    } else {
      var leases := ParseDnsmasqLeases(lines, lower);
      r := Ok(leases);
    }
  }

  ghost function Parsed(lines: seq<string>, lower: string -> string): Result<seq<Lease>, LeaseError> {
    var kinds := KindsOf(lines, lower);
    if !LooksLikeIsc(lines) then Ok(DnsmasqLeases(lines, lower))
    else if AllAddressed(kinds) then Ok(PutAll([], Blocks(kinds), LeaseIp))
    else Err(MissingAddress)
  }
}
