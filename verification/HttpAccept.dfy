/** Which HTTP requests the handshake accepts, and what it makes of them, in terms of their text. */
module HttpAccept {
  import opened Common
  import opened Bytes
  import opened HttpVia
  import Utf8

  predicate Occurs(s: Bytes, part: Bytes, i: nat) {
    i + |part| <= |s| && s[i..i + |part|] == part
  }

  // ----- parts of a line -----

  predicate SpaceFree(s: Bytes) {
    forall i :: 0 <= i < |s| ==> s[i] != 32
  }

  lemma SpaceAt(s: Bytes, i: int)
    ensures At(s, [SPACE], i) <==> 0 <= i < |s| && s[i] == 32
  {
    if 0 <= i < |s| { assert s[i..i + 1] == [s[i]]; }
  }

  lemma FirstSpace(a: Bytes, b: Bytes)
    requires SpaceFree(a) && b != [] && b[0] == 32
    ensures Find(a + b, [SPACE]) == Some(|a|)
  {
    SpaceAt(a + b, |a|);
    forall j | 0 <= j < |a| ensures !At(a + b, [SPACE], j) {
      SpaceAt(a + b, j);
      assert (a + b)[j] == a[j];
    }
    FindUnique(a + b, [SPACE], |a|);
  }

  lemma NoSpace(s: Bytes)
    ensures Find(s, [SPACE]).None? <==> SpaceFree(s)
  {
    if Find(s, [SPACE]).Some? { SpaceAt(s, Find(s, [SPACE]).value); }
    forall j | 0 <= j < |s| ensures At(s, [SPACE], j) <==> s[j] == 32 {
      SpaceAt(s, j);
    }
  }

  /** The second part of a line is what stands between its first space and the next one or the end. */
  lemma SecondPartOf(first: Bytes, second: Bytes, rest: Bytes)
    requires SpaceFree(first) && SpaceFree(second) && (rest == [] || rest[0] == 32)
    ensures SecondPart(first + [SPACE] + second + rest) == Some(second)
  {
    var line := first + [SPACE] + second + rest;
    assert line == first + ([SPACE] + second + rest);
    FirstSpace(first, [SPACE] + second + rest);
    assert line[|first| + 1..] == second + rest;
    if rest == [] {
      assert second + rest == second;
      NoSpace(second);
    } else {
      FirstSpace(second, rest);
      assert (second + rest)[..|second|] == second;
    }
  }

  lemma NoSecondPart(line: Bytes)
    requires SpaceFree(line)
    ensures SecondPart(line) == None
  {
    NoSpace(line);
  }

  // ----- lines of a header -----

  function Join(lines: seq<Bytes>): Bytes {
    if lines == [] then [] else if |lines| == 1 then lines[0] else lines[0] + [13, 10] + Join(lines[1..])
  }

  /** The lines are the parts without a line break that, joined by line breaks, give the text. */
  lemma {:induction false} LinesJoin(s: Bytes)
    ensures Join(SplitLines(s)) == s
    ensures forall line <- SplitLines(s) :: LineBreakFree(line)
    decreases |s|
  {
    var b := Find(s, CRLF);
    if b.Some? {
      var i := b.value;
      var rest := SplitLines(s[i + 2..]);
      LinesJoin(s[i + 2..]);
      RequestLineOfPrefix(s, i);
      assert ([s[..i]] + rest)[1..] == rest;
      assert s[i..i + 2] == [13, 10];
      assert s == s[..i] + s[i..i + 2] + s[i + 2..];
    }
  }

  lemma RequestLineOfPrefix(s: Bytes, i: nat)
    requires Find(s, CRLF) == Some(i)
    ensures LineBreakFree(s[..i])
  {
    forall j | 0 <= j ensures !At(s[..i], CRLF, j) {
      if j + 2 <= i {
        SliceOfTake(s, i, j, j + 2);
        assert !At(s, CRLF, j);
      }
    }
  }

  lemma FirstBreakBehind(data: Bytes, line: Bytes)
    requires LineBreakFree(line) && line + CRLF <= data
    ensures Find(data, CRLF) == Some(|line|)
  {
    assert forall k :: 0 <= k < |line| ==> data[k] == line[k];
    assert data[|line|] == (line + CRLF)[|line|] && data[|line| + 1] == (line + CRLF)[|line| + 1];
    BreakAt(data, |line|);
    forall j | 0 <= j < |line| ensures !At(data, CRLF, j) {
      BreakAt(data, j);
      if j + 2 <= |line| { FreeAt(line, j); }
    }
    FindUnique(data, CRLF, |line|);
  }

  lemma RequestLineIs(data: Bytes, line: Bytes)
    requires LineBreakFree(line) && line + CRLF <= data
    ensures RequestLine(data) == line
  {
    FirstBreakBehind(data, line);
    FirstBreakInHeader(data);
    FirstBreakEnds(data);
    SliceOfTake(data, HeaderLength(data), 0, |line|);
    assert data[0..|line|] == line;
  }

  /** A line names the server if it begins with "via:", in whatever case, and the server's id occurs in it. */
  lemma NamesServerSpelled(line: Bytes, id: Bytes)
    ensures NamesServer(line, id) <==>
      && |line| >= 4 && line[0] in {86, 118} && line[1] in {73, 105} && line[2] in {65, 97} && line[3] == 58
      && exists i: nat :: Occurs(line, id, i)
  {
    var low := Lower(line);
    assert VIA_NAME <= low <==> |low| >= 4 && low[0] == 118 && low[1] == 105 && low[2] == 97 && low[3] == 58;
    if i: nat :| Occurs(line, id, i) {
      assert At(line, id, i);
    }
    if Find(line, id).Some? {
      assert Occurs(line, id, Find(line, id).value);
    }
  }

  lemma ConstantsSpelled()
    ensures CONNECT == Text("CONNECT") && SCHEME_MARK == Text("://") && HTTP_SCHEME == Text("http://")
    ensures ESTABLISHED == Text("HTTP/1.1 200 Connection Established\r\n\r\n")
    ensures VIA_VALUE == Text("Via: 1.1 ") && CRLF == Text("\r\n") && BLANK_LINE == Text("\r\n\r\n")
  {
  }

  // ----- which requests are accepted -----

  /** The URL a target stands for: itself, or http:// in front of it when it has no "://". */
  ghost function UrlText(target: Bytes): Bytes {
    if exists i: nat :: Occurs(target, Text("://"), i) then target else Text("http://") + target
  }

  lemma WithSchemeIs(target: Bytes)
    ensures WithScheme(target) == UrlText(target)
  {
    ConstantsSpelled();
    if i: nat :| Occurs(target, Text("://"), i) {
      assert At(target, SCHEME_MARK, i);
    }
    if Find(target, SCHEME_MARK).Some? {
      assert Occurs(target, Text("://"), Find(target, SCHEME_MARK).value);
    }
  }

  lemma ConnectIsMethod(method': Bytes, rest: Bytes)
    requires SpaceFree(method') && rest != [] && rest[0] == 32
    ensures StartsWith(method' + rest, CONNECT) <==> CONNECT <= method'
  {
    var line := method' + rest;
    if CONNECT <= method' {
      assert line[..7] == method'[..7];
    }
    assert line[|method'|] == 32;
    assert forall k :: 0 <= k < 7 ==> CONNECT[k] != 32;
    if CONNECT <= line {
      assert forall k :: 0 <= k < 7 ==> line[k] == CONNECT[k];
      assert method'[..7] == line[..7];
    }
  }

  lemma AcceptedWhen(l: Listener, data: Bytes, line: Bytes, target: Bytes)
    requires RequestLine(data) == line && SecondPart(line) == Some(target)
    ensures var header, url := data[..HeaderLength(data)], l.parseUrl(WithScheme(target));
      Outcome(l, data).Ok? <==>
        && Utf8.Valid(header) && !StartsWith(target, [47])
        && url.Some? && url.value.host.Some? && url.value.port.Some?
        && (StartsWith(line, CONNECT) || forall line <- SplitLines(header) :: !NamesServer(line, l.serverId))
    ensures Outcome(l, data).Ok? ==>
      var url := l.parseUrl(WithScheme(target));
      url.Some? && Some(Outcome(l, data).value.host) == url.value.host && Some(Outcome(l, data).value.port) == url.value.port
  {
  }

  lemma LineRegrouped(method': Bytes, target: Bytes, version: Bytes)
    ensures var line := method' + [32] + target + [32] + version;
      line == method' + [SPACE] + target + ([32] + version) == method' + ([32] + target + [32] + version)
  {
  }

  /** The target of a request line that is a method, a target and a version, separated by spaces. */
  lemma TargetIs(data: Bytes, method': Bytes, target: Bytes, version: Bytes)
    requires SpaceFree(method') && SpaceFree(target)
    requires LineBreakFree(method' + [32] + target + [32] + version)
    requires method' + [32] + target + [32] + version + [13, 10] <= data
    ensures var line := method' + [32] + target + [32] + version;
      && RequestLine(data) == line && SecondPart(line) == Some(target)
      && (StartsWith(line, CONNECT) <==> CONNECT <= method')
  {
    RequestLineIs(data, method' + [32] + target + [32] + version);
    LineRegrouped(method', target, version);
    SecondPartOf(method', target, [32] + version);
    ConnectIsMethod(method', [32] + target + [32] + version);
  }

  /**
   * A request whose first line is a method, a target and a version, separated by spaces, is accepted exactly
   * when its header is valid text, its target is not in origin form, the URL it stands for has a host and a
   * port, and, unless the method begins with CONNECT, no header line names the server. It goes to that host
   * and port.
   */
  lemma RequestAccepted(l: Listener, data: Bytes, method': Bytes, target: Bytes, version: Bytes)
    requires SpaceFree(method') && SpaceFree(target)
    requires LineBreakFree(method' + [32] + target + [32] + version)
    requires method' + [32] + target + [32] + version + [13, 10] <= data
    ensures var header, url := data[..HeaderLength(data)], l.parseUrl(UrlText(target));
      Outcome(l, data).Ok? <==>
        && Utf8.Valid(header) && (target == [] || target[0] != 47)
        && url.Some? && url.value.host.Some? && url.value.port.Some?
        && (Text("CONNECT") <= method' || forall line <- SplitLines(header) :: !NamesServer(line, l.serverId))
    ensures Outcome(l, data).Ok? ==>
      var url := l.parseUrl(UrlText(target));
      url.Some? && Some(Outcome(l, data).value.host) == url.value.host && Some(Outcome(l, data).value.port) == url.value.port
  {
    ConstantsSpelled();
    TargetIs(data, method', target, version);
    WithSchemeIs(target);
    assert StartsWith(target, [47]) <==> target != [] && target[0] == 47;
    AcceptedWhen(l, data, method' + [32] + target + [32] + version, target);
  }

  /** What such a request is forwarded as: with one Via line behind its first line, or for CONNECT not at all. */
  lemma RequestForwarded(l: Listener, data: Bytes, method': Bytes, target: Bytes, version: Bytes)
    requires SpaceFree(method') && SpaceFree(target)
    requires LineBreakFree(method' + [32] + target + [32] + version)
    requires method' + [32] + target + [32] + version + [13, 10] <= data && Outcome(l, data).Ok?
    ensures var line := method' + [32] + target + [32] + version + [13, 10];
      Outcome(l, data).value.cache ==
      if Text("CONNECT") <= method' then None
      else Some(line + Text("Via: 1.1 ") + l.serverId + [13, 10] + data[|line|..])
  {
    ConstantsSpelled();
    TargetIs(data, method', target, version);
    ViaInserted(l, data);
    InsertedIs(data, method' + [32] + target + [32] + version, l.serverId);
  }

  lemma InsertedIs(data: Bytes, line: Bytes, id: Bytes)
    requires LineBreakFree(line) && line + CRLF <= data
    ensures Inserted(data, id) == line + CRLF + VIA_VALUE + id + CRLF + data[|line| + 2..]
  {
    FirstBreakBehind(data, line);
    assert data[..|line| + 2] == line + CRLF;
    assert line + CRLF + (VIA_VALUE + id + CRLF) + data[|line| + 2..] == line + CRLF + VIA_VALUE + id + CRLF + data[|line| + 2..];
  }

  /** A request whose first line has no space in it is refused. */
  lemma NoTargetRefused(l: Listener, data: Bytes, line: Bytes)
    requires SpaceFree(line) && LineBreakFree(line) && line + [13, 10] <= data && Utf8.Valid(data[..HeaderLength(data)])
    ensures Outcome(l, data) == Err(InvalidParts)
  {
    RequestLineIs(data, line);
    NoSecondPart(line);
  }

  /** The header ends behind the first blank line; without one it is all there is. */
  lemma HeaderSpelled(data: Bytes, i: nat)
    ensures Occurs(data, Text("\r\n\r\n"), i) && (forall j: nat :: j < i ==> !Occurs(data, Text("\r\n\r\n"), j)) ==>
      HeaderLength(data) == i + 4
    ensures (forall j: nat :: !Occurs(data, Text("\r\n\r\n"), j)) ==> HeaderLength(data) == |data|
  {
    ConstantsSpelled();
    var b := Find(data, BLANK_LINE);
    if b.Some? {
      assert Occurs(data, BLANK_LINE, b.value);
    }
    if Occurs(data, BLANK_LINE, i) && forall j: nat :: j < i ==> !Occurs(data, BLANK_LINE, j) {
      forall j | 0 <= j < i ensures !At(data, BLANK_LINE, j) {
        assert !Occurs(data, BLANK_LINE, j);
      }
      FindUnique(data, BLANK_LINE, i);
    }
  }

  /** Why such a request is refused: the first check it fails, in this order. */
  lemma RequestRefused(l: Listener, data: Bytes, method': Bytes, target: Bytes, version: Bytes)
    requires SpaceFree(method') && SpaceFree(target)
    requires LineBreakFree(method' + [32] + target + [32] + version)
    requires method' + [32] + target + [32] + version + [13, 10] <= data && Outcome(l, data).Err?
    ensures var header, url := data[..HeaderLength(data)], l.parseUrl(UrlText(target));
      Outcome(l, data).error ==
      if !Utf8.Valid(header) then NotUtf8
      else if target != [] && target[0] == 47 then OriginForm
      else if url.None? then InvalidUrl
      else if !(Text("CONNECT") <= method') && exists line <- SplitLines(header) :: NamesServer(line, l.serverId) then LoopDetected
      else if url.value.host.None? then Error.NoHost
      else NoPort
  {
    ConstantsSpelled();
    TargetIs(data, method', target, version);
    WithSchemeIs(target);
    assert StartsWith(target, [47]) <==> target != [] && target[0] == 47;
    RefusedWhen(l, data, method' + [32] + target + [32] + version, target);
  }

  lemma RefusedWhen(l: Listener, data: Bytes, line: Bytes, target: Bytes)
    requires RequestLine(data) == line && SecondPart(line) == Some(target) && Outcome(l, data).Err?
    ensures var header, url := data[..HeaderLength(data)], l.parseUrl(WithScheme(target));
      Outcome(l, data).error ==
      if !Utf8.Valid(header) then NotUtf8
      else if StartsWith(target, [47]) then OriginForm
      else if url.None? then InvalidUrl
      else if !StartsWith(line, CONNECT) && exists line <- SplitLines(header) :: NamesServer(line, l.serverId) then LoopDetected
      else if url.value.host.None? then Error.NoHost
      else NoPort
  {
  }
}
