/** docker/warp/connect4.py, do_absolute: the header block and the body that are replayed to the
    origin of an absolute-form request. */
module AbsoluteForm {
  import opened Ascii
  import opened Wrappers
  import opened Connect4
  import opened Connect4Relay
  import Counting

  predicate IsSpace(c: char) {
    c == ' ' || '\t' <= c <= '\r' || 0x1C as char <= c <= 0x1F as char || c == 0x85 as char || c == 0xA0 as char
  }

  function BeforeColon(line: string): string {
    if line == "" || line[0] == ':' then "" else [line[0]] + BeforeColon(line[1..])
  }

  predicate HasColon(line: string) {
    ':' in line
  }

  function AfterColon(line: string): string
    requires HasColon(line)
  {
    if line[0] == ':' then line[1..] else AfterColon(line[1..])
  }

  function StripLeft(s: string): string {
    if s != "" && IsSpace(s[0]) then StripLeft(s[1..]) else s
  }

  function StripRight(s: string): string {
    if s != "" && IsSpace(s[|s| - 1]) then StripRight(s[..|s| - 1]) else s
  }

  function Strip(s: string): string {
    StripRight(StripLeft(s))
  }

  function Name(line: string): string {
    ToLower(Strip(BeforeColon(line)))
  }

  predicate HopByHop(line: string) {
    Name(line) in {"proxy-connection", "connection", "proxy-authorization"}
  }

  /** int(...): the parser is a parameter; None is its ValueError. */
  type ParseInt = string -> Option<int>

  datatype Rewrite =
    | Rewritten(headers: seq<string>, bodyLength: int)
    | ValueError
    | IndexError

  /** The header loop after n lines. */
  datatype Scan = Scan(headers: seq<string>, bodyLength: int, haveHost: bool)

  /** A content-length line that stops the loop, and how. */
  function LengthOf(line: string, parse: ParseInt): Rewrite {
    if !HasColon(line) then IndexError
    else match parse(Strip(AfterColon(line)))
      case None => ValueError
      case Some(n) => Rewritten([], n)
  }

  predicate BadLength(line: string, parse: ParseInt) {
    Name(line) == "content-length" && !LengthOf(line, parse).Rewritten?
  }

  function ScanLine(s: Scan, line: string, parse: ParseInt): Scan {
    if HopByHop(line) then s
    else
      var length := LengthOf(line, parse);
      Scan(s.headers + [line],
           if Name(line) == "content-length" && length.Rewritten? then length.bodyLength else s.bodyLength,
           s.haveHost || Name(line) == "host")
  }

  function ScanLines(lines: seq<string>, parse: ParseInt, n: nat): Scan
    requires n <= |lines|
  {
    if n == 0 then Scan([], 0, false) else ScanLine(ScanLines(lines, parse, n - 1), lines[n - 1], parse)
  }

  function Finish(s: Scan, hostport: string): Rewrite {
    Rewritten((if s.haveHost then [] else ["Host: " + hostport]) + s.headers + ["Connection: close"], s.bodyLength)
  }

  /** One header line. */
  method TakeLine(s: Scan, line: string, parse: ParseInt) returns (r: Scan, bad: Option<Rewrite>)
    ensures bad == if BadLength(line, parse) then Some(LengthOf(line, parse)) else None
    ensures bad.None? ==> r == ScanLine(s, line, parse)
  {
    r, bad := s, None;
    var name := Name(line);
    if HopByHop(line) {
      HopByHopHasNoLength(line);
      return;
    }
    if name == "content-length" {
      var length := LengthOf(line, parse);
      if !length.Rewritten? {
        bad := Some(length);
        return;
      }
      r := r.(bodyLength := length.bodyLength);
    }
    if name == "host" {
      r := r.(haveHost := true);
    }
    r := r.(headers := r.headers + [line]);
  }

  lemma HopByHopHasNoLength(line: string)
    requires HopByHop(line)
    ensures Name(line) != "content-length" && Name(line) != "host"
  {
  }

  /** How the loop ends. */
  predicate IsRewrite(lines: seq<string>, hostport: string, parse: ParseInt, r: Rewrite) {
    && (r.Rewritten? <==> forall i :: 0 <= i < |lines| ==> !BadLength(lines[i], parse))
    && (r.Rewritten? ==> r == Finish(ScanLines(lines, parse, |lines|), hostport))
    && (!r.Rewritten? ==>
          exists i :: && 0 <= i < |lines| && BadLength(lines[i], parse) && r == LengthOf(lines[i], parse)
                      && forall j :: 0 <= j < i ==> !BadLength(lines[j], parse))
  }

  /** The loop: the first unusable content-length ends it. */
  method RewriteHeaders(lines: seq<string>, hostport: string, parse: ParseInt) returns (r: Rewrite)
    ensures IsRewrite(lines, hostport, parse, r)
  {
    hide Name, LengthOf, ScanLine;
    var scan := Scan([], 0, false);
    var i := 0;
    while i < |lines|
      invariant i <= |lines|
      invariant scan == ScanLines(lines, parse, i)
      invariant forall j :: 0 <= j < i ==> !BadLength(lines[j], parse)
    {
      var next, bad := TakeLine(scan, lines[i], parse);
      if bad.Some? {
        return bad.value;
      }
      scan := next;
      i := i + 1;
    }
    var headers := scan.headers;
    if !scan.haveHost {
      headers := ["Host: " + hostport] + headers;
    }
    headers := headers + ["Connection: close"];
    r := Rewritten(headers, scan.bodyLength);
  }

  /** A content-length line without a colon is such a line, whatever the parser makes of numbers. */
  method ColonlessLength(hostport: string, parse: ParseInt) returns (r: Rewrite)
    ensures r == IndexError
  {
    hide Name, Finish;
    var line := "content-length";
    NamesItself(line);
    r := RewriteHeaders([line], hostport, parse);
  }

  /** A lower-case line without colon or spaces at its ends is all name. */
  lemma NamesItself(line: string)
    requires line != "" && !HasColon(line) && !IsSpace(line[0]) && !IsSpace(line[|line| - 1])
    requires forall i :: 0 <= i < |line| ==> LowerChar(line[i]) == line[i]
    ensures Name(line) == line
  {
    NothingBeforeColon(line);
  }

  lemma {:induction false} NothingBeforeColon(line: string)
    requires !HasColon(line)
    ensures BeforeColon(line) == line
  {
    if line != "" {
      NothingBeforeColon(line[1..]);
    }
  }

  /******* What the lines mean *******/

  predicate AllSpace(s: string) {
    forall i :: 0 <= i < |s| ==> IsSpace(s[i])
  }

  /** t is s without the spaces at its ends, and has none there itself. */
  ghost predicate StripsTo(s: string, t: string) {
    && (exists a: string, b: string :: s == a + t + b && AllSpace(a) && AllSpace(b))
    && (t != "" ==> !IsSpace(t[0]) && !IsSpace(t[|t| - 1]))
  }

  /** The twelve characters of latin-1 that str.strip takes for spaces. */
  lemma SpaceIs(c: char)
    ensures IsSpace(c) <==>
            c in {' ', '\t', '\n', 0x0B as char, 0x0C as char, '\r',
                  0x1C as char, 0x1D as char, 0x1E as char, 0x1F as char, 0x85 as char, 0xA0 as char}
  {
  }

  lemma {:induction false} StripLeftSplits(s: string) returns (a: string)
    ensures s == a + StripLeft(s) && AllSpace(a)
    ensures StripLeft(s) != "" ==> !IsSpace(StripLeft(s)[0])
  {
    a := "";
    if s != "" && IsSpace(s[0]) {
      var rest := StripLeftSplits(s[1..]);
      a := [s[0]] + rest;
    }
  }

  lemma {:induction false} StripRightSplits(s: string) returns (b: string)
    ensures s == StripRight(s) + b && AllSpace(b)
    ensures StripRight(s) != "" ==> !IsSpace(StripRight(s)[|StripRight(s)| - 1])
  {
    b := "";
    if s != "" && IsSpace(s[|s| - 1]) {
      var rest := StripRightSplits(s[..|s| - 1]);
      b := rest + [s[|s| - 1]];
    }
  }

  /** Strip is what it should be, and nothing else is. */
  lemma StripIs(s: string, t: string)
    ensures StripsTo(s, t) <==> t == Strip(s)
  {
    StripStrips(s);
    if StripsTo(s, t) {
      var a: string, b: string :| s == a + t + b && AllSpace(a) && AllSpace(b);
      var c: string, d: string :| s == c + Strip(s) + d && AllSpace(c) && AllSpace(d);
      OnlyOneCore(a, t, b, c, Strip(s), d);
    }
  }

  lemma StripStrips(s: string)
    ensures StripsTo(s, Strip(s))
  {
    var a := StripLeftSplits(s);
    var left := StripLeft(s);
    var b := StripRightSplits(left);
    assert s == a + Strip(s) + b;
    assert Strip(s) != "" ==> Strip(s)[0] == left[0];
  }

  lemma OnlyOneCore(a: string, t: string, b: string, c: string, u: string, d: string)
    requires a + t + b == c + u + d && AllSpace(a) && AllSpace(b) && AllSpace(c) && AllSpace(d)
    requires t != "" ==> !IsSpace(t[0]) && !IsSpace(t[|t| - 1])
    requires u != "" ==> !IsSpace(u[0]) && !IsSpace(u[|u| - 1])
    ensures t == u
  {
    var s := a + t + b;
    if t != "" {
      CoreInside(a, t, b, c, u, d);
    }
    if u != "" {
      CoreInside(c, u, d, a, t, b);
    }
    if t != "" {
      assert s[|a|..|a| + |t|] == t && s[|c|..|c| + |u|] == u;
    }
  }

  /** What is not a space lies within every core. */
  lemma CoreInside(a: string, t: string, b: string, c: string, u: string, d: string)
    requires a + t + b == c + u + d && AllSpace(c) && AllSpace(d)
    requires t != "" && !IsSpace(t[0]) && !IsSpace(t[|t| - 1])
    ensures |c| <= |a| && |a| + |t| <= |c| + |u|
  {
    var s := a + t + b;
    assert s[|a|] == t[0] && s[|a| + |t| - 1] == t[|t| - 1];
    SpacesAreOutside(c, u, d, |a|);
    SpacesAreOutside(c, u, d, |a| + |t| - 1);
  }

  lemma SpacesAreOutside(c: string, u: string, d: string, k: nat)
    requires k < |c + u + d| && !IsSpace((c + u + d)[k]) && AllSpace(c) && AllSpace(d)
    ensures |c| <= k < |c| + |u|
  {
    IndexOfThree(c, u, d, k);
  }

  lemma IndexOfThree(c: string, u: string, d: string, k: nat)
    requires k < |c + u + d|
    ensures (c + u + d)[k] == if k < |c| then c[k] else if k < |c| + |u| then u[k - |c|] else d[k - |c| - |u|]
  {
  }

  /** A header line, cut at its first colon. */
  predicate LineIs(line: string, name: string, value: string) {
    line == name + ":" + value && ':' !in name
  }

  lemma {:induction false} LineParts(line: string, name: string, value: string)
    requires LineIs(line, name, value)
    ensures HasColon(line) && BeforeColon(line) == name && AfterColon(line) == value
  {
    assert line[|name|] == ':';
    if name != "" {
      assert line[0] == name[0] && line[1..] == name[1..] + ":" + value;
      LineParts(line[1..], name[1..], value);
    }
  }

  lemma {:induction false} CutAtColon(line: string) returns (name: string, value: string)
    requires HasColon(line)
    ensures LineIs(line, name, value)
  {
    if line[0] == ':' {
      name, value := "", line[1..];
    } else {
      assert ':' in line[1..];
      name, value := CutAtColon(line[1..]);
      name := [line[0]] + name;
    }
  }

  /** Letter case and the spaces around a header's name do not matter. */
  lemma NameOf(line: string, name: string, value: string, bare: string)
    requires LineIs(line, name, value) && StripsTo(name, bare)
    ensures Name(line) == ToLower(bare)
  {
    LineParts(line, name, value);
    StripIs(name, bare);
  }

  /** A content-length whose value the parser takes for n, or for nothing. */
  ghost predicate Announces(line: string, parse: ParseInt, n: Option<int>) {
    Name(line) == "content-length" && exists name: string, value: string, digits: string ::
      LineIs(line, name, value) && StripsTo(value, digits) && parse(digits) == n
  }

  predicate Colonless(line: string) {
    Name(line) == "content-length" && ':' !in line
  }

  lemma AnnouncesOne(line: string, parse: ParseInt, n: Option<int>)
    ensures Announces(line, parse, n) <==>
            Name(line) == "content-length" && ':' in line && parse(Strip(AfterColon(line))) == n
  {
    hide Name, Strip;
    if Announces(line, parse, n) {
      var name: string, value: string, digits: string :|
        LineIs(line, name, value) && StripsTo(value, digits) && parse(digits) == n;
      LineParts(line, name, value);
      StripIs(value, digits);
    }
    if ':' in line {
      var name, value := CutAtColon(line);
      LineParts(line, name, value);
      StripIs(value, Strip(value));
      assert LineIs(line, name, value) && StripsTo(value, Strip(value));
    }
  }

  lemma LengthMeans(line: string, parse: ParseInt)
    requires Name(line) == "content-length"
    ensures LengthOf(line, parse).IndexError? <==> Colonless(line)
    ensures LengthOf(line, parse).ValueError? <==> Announces(line, parse, None)
    ensures forall n :: LengthOf(line, parse) == Rewritten([], n) ==> Announces(line, parse, Some(n))
  {
    hide Name, Strip, Announces;
    AnnouncesOne(line, parse, None);
    if ':' in line {
      AnnouncesOne(line, parse, parse(Strip(AfterColon(line))));
    }
  }

  /** The first line that stops the loop decides: a ValueError if and only if the parser gives nothing for
      what it announces, an IndexError if and only if it has no colon. */
  lemma FirstBadLineDecides(lines: seq<string>, hostport: string, parse: ParseInt, r: Rewrite)
    requires IsRewrite(lines, hostport, parse, r)
    ensures r.Rewritten? <==>
            forall i :: 0 <= i < |lines| ==> !Colonless(lines[i]) && !Announces(lines[i], parse, None)
    ensures !r.Rewritten? ==>
              exists i :: && 0 <= i < |lines|
                          && (r.ValueError? <==> Announces(lines[i], parse, None))
                          && (r.IndexError? <==> Colonless(lines[i]))
                          && forall j :: 0 <= j < i ==> !Colonless(lines[j]) && !Announces(lines[j], parse, None)
  {
    hide Name, Finish, ScanLines, LengthOf, Announces;
    forall i | 0 <= i < |lines|
      ensures BadLength(lines[i], parse) <==> Colonless(lines[i]) || Announces(lines[i], parse, None)
      ensures BadLength(lines[i], parse) ==>
        && (LengthOf(lines[i], parse).ValueError? <==> Announces(lines[i], parse, None))
        && (LengthOf(lines[i], parse).IndexError? <==> Colonless(lines[i]))
    {
      AnnouncesLengthOnly(lines[i], parse);
      if Name(lines[i]) == "content-length" {
        LengthMeans(lines[i], parse);
      }
    }
  }

  lemma AnnouncesLengthOnly(line: string, parse: ParseInt)
    ensures Colonless(line) || Announces(line, parse, None) ==> Name(line) == "content-length"
  {
  }

  /** The body length is what the last content-length announces ... */
  lemma LastLengthWins(lines: seq<string>, hostport: string, parse: ParseInt, r: Rewrite, i: nat)
    requires IsRewrite(lines, hostport, parse, r) && r.Rewritten?
    requires i < |lines| && Name(lines[i]) == "content-length"
    requires forall k :: i < k < |lines| ==> Name(lines[k]) != "content-length"
    ensures Announces(lines[i], parse, Some(r.bodyLength))
  {
    hide Name, ScanLines, LengthOf, Announces;
    LastOneStays(lines, parse, |lines|, i);
    LengthMeans(lines[i], parse);
  }

  lemma {:induction false} LastOneStays(lines: seq<string>, parse: ParseInt, n: nat, i: nat)
    requires i < n <= |lines| && forall k :: 0 <= k < n ==> !BadLength(lines[k], parse)
    requires Name(lines[i]) == "content-length"
    requires forall k :: i < k < n ==> Name(lines[k]) != "content-length"
    ensures LengthOf(lines[i], parse) == Rewritten([], ScanLines(lines, parse, n).bodyLength)
  {
    hide LengthOf;
    LengthIsBare(lines[n - 1], parse);
    if i < n - 1 {
      LastOneStays(lines, parse, n - 1, i);
    }
  }

  lemma LengthIsBare(line: string, parse: ParseInt)
    ensures LengthOf(line, parse).Rewritten? ==> LengthOf(line, parse).headers == []
  {
  }

  /** ... and 0 when there is none. */
  lemma NoLengthMeansZero(lines: seq<string>, hostport: string, parse: ParseInt, r: Rewrite)
    requires IsRewrite(lines, hostport, parse, r)
    requires forall k :: 0 <= k < |lines| ==> Name(lines[k]) != "content-length"
    ensures r.Rewritten? && r.bodyLength == 0
  {
    hide Name, ScanLines, LengthOf;
    NothingAnnounced(lines, parse, |lines|);
  }

  lemma {:induction false} NothingAnnounced(lines: seq<string>, parse: ParseInt, n: nat)
    requires n <= |lines| && forall k :: 0 <= k < n ==> Name(lines[k]) != "content-length"
    ensures ScanLines(lines, parse, n).bodyLength == 0
  {
    if n > 0 {
      NothingAnnounced(lines, parse, n - 1);
    }
  }

  /** The line every client sends. */
  method PlainLength(hostport: string, parse: ParseInt) returns (r: Rewrite)
    requires parse("5") == Some(5)
    ensures r.Rewritten? && r.bodyLength == 5
  {
    hide Name, IsRewrite;
    var line := "Content-Length: 5";
    PlainLine();
    r := RewriteHeaders([line], hostport, parse);
    FirstBadLineDecides([line], hostport, parse, r);
    FiveIsFive(line, parse);
    LastLengthWins([line], hostport, parse, r, 0);
  }

  lemma FiveIsFive(line: string, parse: ParseInt)
    requires line == "Content-Length: 5" && parse("5") == Some(5)
    ensures !Colonless(line) && forall n :: Announces(line, parse, n) ==> n == Some(5)
  {
    hide Name, Strip;
    assert LineIs(line, "Content-Length", " 5") by { assert line == "Content-Length" + ":" + " 5"; }
    LineParts(line, "Content-Length", " 5");
    assert StripsTo(" 5", "5") by {
      var a, b := " ", "";
      assert " 5" == a + "5" + b && AllSpace(a) && AllSpace(b);
    }
    StripIs(" 5", "5");
    forall n | Announces(line, parse, n)
      ensures n == Some(5)
    {
      AnnouncesOne(line, parse, n);
    }
  }

  lemma PlainLine()
    ensures Name("Content-Length: 5") == "content-length"
  {
    NameIs("Content-Length" + ": 5", "Content-Length", "content-length");
    assert "Content-Length" + ": 5" == "Content-Length: 5";
  }

  /******* What the origin is sent *******/

  function HasName(name: string): string -> bool {
    (line: string) => Name(line) == name
  }

  function Count(lines: seq<string>, name: string): nat {
    Counting.Count(HasName(name), lines)
  }

  /** The names whose lines concern this connection only. */
  const ENDS_HERE: set<string> := {"connection", "proxy-connection", "proxy-authorization"}

  /** Positions of `kept` in `lines`, strictly increasing and missing exactly the lines that end here. */
  ghost predicate KeepsAllOthersInOrder(lines: seq<string>, kept: seq<string>, at: seq<nat>) {
    && |at| == |kept|
    && (forall k :: 0 <= k < |at| ==> at[k] < |lines| && lines[at[k]] == kept[k] && Name(kept[k]) !in ENDS_HERE)
    && (forall k, l :: 0 <= k < l < |at| ==> at[k] < at[l])
    && (forall i :: 0 <= i < |lines| && Name(lines[i]) !in ENDS_HERE ==> i in at)
  }

  /** The scan keeps every other header line, in order. */
  lemma {:induction false} ScanKeepsTheRest(lines: seq<string>, parse: ParseInt, n: nat) returns (at: seq<nat>)
    requires n <= |lines|
    ensures KeepsAllOthersInOrder(lines[..n], ScanLines(lines, parse, n).headers, at)
  {
    if n == 0 {
      at := [];
    } else {
      at := ScanKeepsTheRest(lines, parse, n - 1);
      assert lines[..n] == lines[..n - 1] + [lines[n - 1]];
      KeepOneMore(lines[..n - 1], lines[n - 1], ScanLines(lines, parse, n - 1).headers, at);
      if !HopByHop(lines[n - 1]) {
        at := at + [n - 1];
      }
    }
  }

  lemma KeepOneMore(lines: seq<string>, line: string, kept: seq<string>, at: seq<nat>)
    requires KeepsAllOthersInOrder(lines, kept, at)
    ensures HopByHop(line) ==> KeepsAllOthersInOrder(lines + [line], kept, at)
    ensures !HopByHop(line) ==> KeepsAllOthersInOrder(lines + [line], kept + [line], at + [|lines|])
  {
    hide Name;
    var next := at + [|lines|];
    assert forall i :: i in at ==> i in next;
    assert next[|at|] == |lines|;
  }

  /** No line kept that ends here, and every other one; a host noticed. */
  ghost predicate CountsOk(lines: seq<string>, s: Scan) {
    && (s.haveHost <==> Count(s.headers, "host") > 0)
    && forall name :: Count(s.headers, name) == if name in ENDS_HERE then 0 else Count(lines, name)
  }

  lemma LineCounts(lines: seq<string>, s: Scan, line: string, parse: ParseInt)
    requires CountsOk(lines, s)
    ensures CountsOk(lines + [line], ScanLine(s, line, parse))
  {
    hide Name, Count, LengthOf;
    forall name
      ensures Count(lines + [line], name) == Count(lines, name) + if Name(line) == name then 1 else 0
      ensures Count(s.headers + [line], name) == Count(s.headers, name) + if Name(line) == name then 1 else 0
    {
      CountAppend(lines, line, name);
      CountAppend(s.headers, line, name);
    }
  }

  lemma {:induction false} ScanCounts(lines: seq<string>, parse: ParseInt, n: nat)
    requires n <= |lines|
    ensures CountsOk(lines[..n], ScanLines(lines, parse, n))
  {
    hide ScanLine, Name;
    if n > 0 {
      ScanCounts(lines, parse, n - 1);
      LineCounts(lines[..n - 1], ScanLines(lines, parse, n - 1), lines[n - 1], parse);
      assert lines[..n] == lines[..n - 1] + [lines[n - 1]];
    }
  }

  lemma CountAppend(lines: seq<string>, line: string, name: string)
    ensures Count(lines + [line], name) == Count(lines, name) + if Name(line) == name then 1 else 0
  {
    Counting.CountAppend(HasName(name), lines, line);
  }

  lemma CountOne(line: string, name: string)
    ensures Count([line], name) == if Name(line) == name then 1 else 0
  {
    Counting.CountOne(HasName(name), line);
  }

  lemma NameIs(line: string, raw: string, name: string)
    requires |raw| < |line| && line[..|raw|] == raw && line[|raw|] == ':'
    requires forall i :: 0 <= i < |raw| ==> raw[i] != ':' && !IsSpace(raw[i])
    requires |raw| == |name| && forall i :: 0 <= i < |raw| ==> LowerChar(raw[i]) == name[i]
    ensures Name(line) == name
  {
    BeforeColonIs(line, raw);
    assert ToLower(raw) == name;
  }

  lemma ConnectionIsConnection()
    ensures Name("Connection: close") == "connection"
  {
    assert "Connection: close" == "Connection" + ": close";
    NameIs("Connection" + ": close", "Connection", "connection");
  }

  lemma HostIsHost(hostport: string)
    ensures Name("Host: " + hostport) == "host"
  {
    NameIs("Host: " + hostport, "Host", "host");
  }

  lemma {:induction false} BeforeColonIs(line: string, name: string)
    requires |name| < |line| && line[..|name|] == name && line[|name|] == ':'
    requires forall i :: 0 <= i < |name| ==> name[i] != ':' && !IsSpace(name[i])
    ensures BeforeColon(line) == name && Strip(name) == name
  {
    if name != "" {
      assert line[0] == name[0];
      assert line[1..][..|name| - 1] == name[1..];
      BeforeColonIs(line[1..], name[1..]);
      assert [name[0]] + name[1..] == name;
    }
  }

  /** Section 7.6.1 of RFC 9110: no connection option and no proxy header of the client survives, and
      exactly one line says the connection closes, the last. Every other header line is there once per
      occurrence, in the client's order; a Host line is put first exactly when the client sent none. */
  lemma RewriteIsExact(lines: seq<string>, hostport: string, parse: ParseInt, r: Rewrite) returns (at: seq<nat>)
    requires IsRewrite(lines, hostport, parse, r) && r.Rewritten?
    ensures var added := if Count(lines, "host") > 0 then 0 else 1;
            && |r.headers| > added
            && Count(r.headers, "connection") == 1
            && r.headers[|r.headers| - 1] == "Connection: close"
            && Count(r.headers, "proxy-connection") == 0 && Count(r.headers, "proxy-authorization") == 0
            && (forall name :: name !in {"connection", "proxy-connection", "proxy-authorization", "host"} ==>
                  Count(r.headers, name) == Count(lines, name))
            && Count(r.headers, "host") == Count(lines, "host") + added
            && (added == 1 ==> r.headers[0] == "Host: " + hostport)
            && KeepsAllOthersInOrder(lines, r.headers[added..|r.headers| - 1], at)
  {
    hide Count, Name, ScanLines, KeepsAllOthersInOrder;
    at := ScanKeepsTheRest(lines, parse, |lines|);
    assert lines[..|lines|] == lines;
    ScanCounts(lines, parse, |lines|);
    var s := ScanLines(lines, parse, |lines|);
    FinishCounts(s, hostport);
    var first := if s.haveHost then [] else ["Host: " + hostport];
    Between(first, s.headers, ["Connection: close"]);
  }

  lemma Between(a: seq<string>, b: seq<string>, c: seq<string>)
    requires |c| == 1
    ensures (a + b + c)[|a|..|a + b + c| - 1] == b
  {
  }

  lemma FinishCounts(s: Scan, hostport: string)
    ensures var r := Finish(s, hostport);
            forall name :: Count(r.headers, name)
                           == Count(s.headers, name) + (if name == "connection" then 1 else 0)
                              + (if name == "host" && !s.haveHost then 1 else 0)
  {
    hide Count;
    var first := if s.haveHost then [] else ["Host: " + hostport];
    forall name
      ensures Count(first + s.headers + ["Connection: close"], name)
              == Count(s.headers, name) + (if name == "connection" then 1 else 0)
                 + (if name == "host" && !s.haveHost then 1 else 0)
    {
      CountAround(first, s.headers, name);
      if s.haveHost {
        CountNone(name);
      } else {
        HostIsHost(hostport);
        CountOne("Host: " + hostport, name);
      }
    }
  }

  lemma CountNone(name: string)
    ensures Count([], name) == 0
  {
  }

  lemma CountAround(first: seq<string>, middle: seq<string>, name: string)
    ensures Count(first + middle + ["Connection: close"], name)
            == Count(first, name) + Count(middle, name) + if name == "connection" then 1 else 0
  {
    ConnectionIsConnection();
    Counting.CountConcat(HasName(name), first + middle, ["Connection: close"]);
    Counting.CountConcat(HasName(name), first, middle);
    CountOne("Connection: close", name);
  }

  /** How many bytes can be received before the socket errs or the client closes. */
  function Readable(chunks: seq<Chunk>, n: nat): nat
    decreases |chunks| - n
  {
    if n >= |chunks| || chunks[n].Broken? then 0 else |chunks[n].bytes| + Readable(chunks, n + 1)
  }

  /** The body loop: it ends with at least the declared bytes, everything it took off the socket, in
      order. It raises exactly when the client breaks off before that. */
  method ReadBody(client: Source, rest: string, bodyLength: int) returns (body: Option<string>)
    requires client.Valid()
    modifies client
    ensures client.Valid()
    ensures body.Some? ==> |body.value| >= bodyLength
    ensures body.Some? ==>
      body.value + Later(client.chunks, client.next) == rest + Later(client.chunks, old(client.next))
    ensures body.Some? && |rest| < bodyLength ==> |body.value| < bodyLength + RECV
    ensures body.Some? && |rest| >= bodyLength ==> body.value == rest
    ensures body.Some? <==> |rest| + Readable(client.chunks, old(client.next)) >= bodyLength
  {
    var got := rest;
    ghost var all := rest + Later(client.chunks, client.next);
    while |got| < bodyLength
      invariant client.Valid()
      invariant got + Later(client.chunks, client.next) == all
      invariant |got| + Readable(client.chunks, client.next) == |rest| + Readable(client.chunks, old(client.next))
      invariant |rest| >= bodyLength ==> got == rest
      invariant |rest| < bodyLength ==> |got| < bodyLength + RECV
      decreases |client.chunks| - client.next
    {
      ghost var before, at := got, client.next;
      var chunk := client.Recv();
      if chunk.None? || chunk.value == "" {
        return None;
      }
      got := got + chunk.value;
      Regroup(before, chunk.value, Later(client.chunks, at + 1));
    }
    body := Some(got);
  }
}
