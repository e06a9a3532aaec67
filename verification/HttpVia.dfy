/**
 * The HTTP handshake with its Via header and loop check (src/listener/http.rs, and the HTTP branch of
 * src/listener/htss5.rs; Via is section 7.6.3 of RFC 9110).
 */
module HttpVia {
  import opened Common
  import opened Bytes
  import Utf8

  datatype Error = NotUtf8 | InvalidParts | OriginForm | InvalidUrl | LoopDetected | NoHost | NoPort
  datatype Result<+T> = Ok(value: T) | Err(error: Error)

  const CR: byte := 13
  const LF: byte := 10
  const SPACE: byte := 32
  const CRLF: Bytes := [CR, LF]
  const BLANK_LINE: Bytes := [CR, LF, CR, LF]
  const VIA_NAME: Bytes := [118, 105, 97, 58]                     // "via:"
  const VIA_VALUE: Bytes := [86, 105, 97, 58, 32, 49, 46, 49, 32] // "Via: 1.1 "
  const CONNECT: Bytes := [67, 79, 78, 78, 69, 67, 84]
  const ESTABLISHED := Text("HTTP/1.1 200 Connection Established\r\n\r\n")
  const SCHEME_MARK: Bytes := [58, 47, 47]                        // "://"
  const HTTP_SCHEME: Bytes := [104, 116, 116, 112, 58, 47, 47]    // "http://"

  // ----- text operations -----

  predicate At(s: Bytes, pattern: Bytes, i: int) {
    0 <= i <= |s| - |pattern| && s[i..i + |pattern|] == pattern
  }

  function FindFrom(s: Bytes, pattern: Bytes, i: nat): (r: Option<nat>)
    requires i <= |s|
    ensures r.Some? ==> i <= r.value && At(s, pattern, r.value) && forall j :: i <= j < r.value ==> !At(s, pattern, j)
    ensures r.None? ==> forall j :: i <= j ==> !At(s, pattern, j)
    decreases |s| - i
  {
    if At(s, pattern, i) then Some(i)
    else if i == |s| then None
    else FindFrom(s, pattern, i + 1)
  }

  /** The first occurrence. */
  function Find(s: Bytes, pattern: Bytes): (r: Option<nat>)
    ensures r.Some? ==> At(s, pattern, r.value) && forall j :: 0 <= j < r.value ==> !At(s, pattern, j)
    ensures r.None? ==> forall j :: 0 <= j ==> !At(s, pattern, j)
  {
    FindFrom(s, pattern, 0)
  }

  lemma FindUnique(s: Bytes, pattern: Bytes, i: nat)
    requires At(s, pattern, i) && forall j :: 0 <= j < i ==> !At(s, pattern, j)
    ensures Find(s, pattern) == Some(i)
  {
  }

  predicate StartsWith(s: Bytes, prefix: Bytes) {
    prefix <= s
  }

  function SplitLines(s: Bytes): (lines: seq<Bytes>)
    ensures lines != []
    decreases |s|
  {
    match Find(s, CRLF)
    case None => [s]
    case Some(i) => [s[..i]] + SplitLines(s[i + 2..])
  }

  /** The second of the parts of a line split at spaces. */
  function SecondPart(line: Bytes): Option<Bytes> {
    match Find(line, [SPACE])
    case None => None
    case Some(i) =>
      var rest := line[i + 1..];
      match Find(rest, [SPACE])
      case None => Some(rest)
      case Some(j) => Some(rest[..j])
  }

  function Lower(s: Bytes): Bytes {
    seq(|s|, i requires 0 <= i < |s| => if 65 <= s[i] <= 90 then s[i] + 32 else s[i])
  }

  /** A Via line that names this server. */
  predicate NamesServer(line: Bytes, serverId: Bytes) {
    StartsWith(Lower(line), VIA_NAME) && Find(line, serverId).Some?
  }

  // ----- the handshake -----

  /** What the URL library makes of a target. */
  datatype Url = Url(host: Option<Bytes>, port: Option<nat>)

  datatype Accepted = Accepted(host: Bytes, port: nat, cache: Option<Bytes>)

  datatype Listener = Listener(serverId: Bytes, parseUrl: Bytes -> Option<Url>)

  function HeaderLength(data: Bytes): (n: nat)
    ensures n <= |data|
  {
    match Find(data, BLANK_LINE)
    case None => |data|
    case Some(i) => i + 4
  }

  function ViaLine(serverId: Bytes): Bytes {
    VIA_VALUE + serverId + CRLF
  }

  function WithScheme(target: Bytes): Bytes {
    if Find(target, SCHEME_MARK).Some? then target else HTTP_SCHEME + target
  }

  /** The checks on the first line, in the order they are made. */
  function TargetOf(l: Listener, line: Bytes): Result<Url> {
    var part := SecondPart(line);
    if part.None? then Err(InvalidParts)
    else if StartsWith(part.value, [47]) then Err(OriginForm)
    else
      match l.parseUrl(WithScheme(part.value))
      case None => Err(InvalidUrl)
      case Some(url) => Ok(url)
  }

  /** Loop check and Via insertion for a method other than CONNECT. */
  function Rewrite(l: Listener, header: Bytes, body: Bytes): Result<Bytes> {
    if exists line <- SplitLines(header) :: NamesServer(line, l.serverId) then Err(LoopDetected)
    else
      match Find(header, CRLF)
      case None => Ok(header + body)
      case Some(i) => Ok(header[..i + 2] + ViaLine(l.serverId) + header[i + 2..] + body)
  }

  function Outcome(l: Listener, data: Bytes): Result<Accepted> {
    var n := HeaderLength(data);
    if !Utf8.Valid(data[..n]) then Err(NotUtf8)
    else
      var line := SplitLines(data[..n])[0];
      var url := TargetOf(l, line);
      if url.Err? then Err(url.error)
      else
        var cache := if StartsWith(line, CONNECT) then Ok(None) else Forwarded(Rewrite(l, data[..n], data[n..]));
        if cache.Err? then Err(cache.error)
        else if url.value.host.None? then Err(Error.NoHost)
        else if url.value.port.None? then Err(NoPort)
        else Ok(Accepted(url.value.host.value, url.value.port.value, cache.value))
  }

  function Forwarded(r: Result<Bytes>): Result<Option<Bytes>> {
    match r
    case Ok(b) => Ok(Some(b))
    case Err(e) => Err(e)
  }

  /** The request line of what was read. */
  function RequestLine(data: Bytes): Bytes {
    SplitLines(data[..HeaderLength(data)])[0]
  }

  /** Outcome, and the answer to a CONNECT, which goes out before the URL's host and port are looked at. */
  method Handshake(l: Listener, data: Bytes) returns (r: Result<Accepted>, reply: Bytes)
    ensures r == Outcome(l, data)
    ensures reply ==
      if Utf8.Valid(data[..HeaderLength(data)]) && TargetOf(l, RequestLine(data)).Ok? && StartsWith(RequestLine(data), CONNECT)
      then ESTABLISHED else []
  {
    reply := [];
    var n := HeaderLength(data);
    var header, body := data[..n], data[n..];
    var cache: Option<Bytes> := Some(data);
    if !Utf8.Valid(header) {
      return Err(NotUtf8), reply;
    }
    var lines := SplitLines(header);
    var firstLine := lines[0];
    assert firstLine == RequestLine(data);
    var url := TargetOf(l, firstLine);
    if url.Err? {
      return Err(url.error), reply;
    }
    if StartsWith(firstLine, CONNECT) {
      cache := None;
      reply := ESTABLISHED;
    } else {
      for i := 0 to |lines|
        invariant forall j :: 0 <= j < i ==> !NamesServer(lines[j], l.serverId)
      {
        if NamesServer(lines[i], l.serverId) {
          assert lines[i] in lines;
          return Err(LoopDetected), reply;
        }
      }
      assert header + body == data;
      var idx := Find(header, CRLF);
      if idx.Some? {
        var newBytes := header[..idx.value + 2] + ViaLine(l.serverId) + header[idx.value + 2..];
        newBytes := newBytes + body;
        cache := Some(newBytes);
      }
    }
    if url.value.host.None? {
      return Err(Error.NoHost), reply;
    }
    if url.value.port.None? {
      return Err(NoPort), reply;
    }
    return Ok(Accepted(url.value.host.value, url.value.port.value, cache)), reply;
  }

  // ----- what is forwarded -----

  lemma FindInPrefix(s: Bytes, pattern: Bytes, n: nat)
    requires n <= |s| && Find(s, pattern).Some? && Find(s, pattern).value + |pattern| <= n
    ensures Find(s[..n], pattern) == Find(s, pattern)
  {
    var i := Find(s, pattern).value;
    SliceOfTake(s, n, i, i + |pattern|);
    forall j | 0 <= j < i ensures !At(s[..n], pattern, j) {
      if j + |pattern| <= n {
        SliceOfTake(s, n, j, j + |pattern|);
        assert !At(s, pattern, j);
      }
    }
    FindUnique(s[..n], pattern, i);
  }

  /** The first line break lies in the header. */
  lemma FirstBreakInHeader(data: Bytes)
    ensures Find(data[..HeaderLength(data)], CRLF) == Find(data, CRLF)
    ensures Find(data, BLANK_LINE).Some? ==> Find(data, CRLF).Some? && Find(data, CRLF).value <= Find(data, BLANK_LINE).value
  {
    var n := HeaderLength(data);
    var b := Find(data, BLANK_LINE);
    if b.Some? {
      BlankAt(data, b.value);
      BreakAt(data, b.value);
      FindInPrefix(data, CRLF, n);
    } else {
      assert data[..n] == data;
    }
  }

  function Inserted(data: Bytes, serverId: Bytes): Bytes {
    match Find(data, CRLF)
    case None => data
    case Some(i) => data[..i + 2] + ViaLine(serverId) + data[i + 2..]
  }

  lemma RewriteInserts(l: Listener, data: Bytes)
    requires Rewrite(l, data[..HeaderLength(data)], data[HeaderLength(data)..]).Ok?
    ensures Rewrite(l, data[..HeaderLength(data)], data[HeaderLength(data)..]) == Ok(Inserted(data, l.serverId))
  {
    var n := HeaderLength(data);
    var header, body := data[..n], data[n..];
    FirstBreakInHeader(data);
    assert header + body == data;
    var i := Find(header, CRLF);
    if i.Some? {
      assert header[..i.value + 2] == data[..i.value + 2];
      assert header[i.value + 2..] + body == data[i.value + 2..];
      var head := data[..i.value + 2] + ViaLine(l.serverId);
      assert head + header[i.value + 2..] + body == head + (header[i.value + 2..] + body);
    }
  }

  /**
   * An accepted request other than CONNECT is forwarded unchanged but for one Via line, inserted right
   * after the first line; the rest of the header and the body are untouched. CONNECT forwards nothing.
   */
  lemma ViaInserted(l: Listener, data: Bytes)
    requires Outcome(l, data).Ok?
    ensures Outcome(l, data).value.cache ==
      if StartsWith(RequestLine(data), CONNECT) then None else Some(Inserted(data, l.serverId))
  {
    if !StartsWith(RequestLine(data), CONNECT) {
      RewriteInserts(l, data);
    }
  }

  // ----- loops -----

  predicate LineBreakFree(s: Bytes) {
    Find(s, CRLF).None?
  }

  lemma BreakAt(s: Bytes, j: int)
    ensures At(s, CRLF, j) <==> 0 <= j && j + 2 <= |s| && s[j] == CRLF[0] && s[j + 1] == CRLF[1]
  {
    if 0 <= j && j + 2 <= |s| {
      assert s[j..j + 2] == [s[j], s[j + 1]];
    }
  }

  lemma BlankAt(s: Bytes, j: int)
    ensures At(s, BLANK_LINE, j) <==>
      0 <= j && j + 4 <= |s| && s[j] == CRLF[0] && s[j + 1] == CRLF[1] && s[j + 2] == CRLF[0] && s[j + 3] == CRLF[1]
  {
    if 0 <= j && j + 4 <= |s| {
      assert s[j..j + 4] == [s[j], s[j + 1], s[j + 2], s[j + 3]];
    }
  }

  lemma FreeAt(s: Bytes, j: int)
    requires LineBreakFree(s) && 0 <= j && j + 2 <= |s|
    ensures s[j] != CRLF[0] || s[j + 1] != CRLF[1]
  {
    assert !At(s, CRLF, j);
    BreakAt(s, j);
  }

  /** Line breaks in a first line followed by a Via line: one after each. */
  lemma BreaksInHead(line: Bytes, id: Bytes, j: int)
    requires LineBreakFree(line) && LineBreakFree(id)
    ensures At(line + CRLF + ViaLine(id), CRLF, j) <==> j == |line| || j == |line| + |ViaLine(id)|
  {
    var via := ViaLine(id);
    var head := line + CRLF + via;
    assert |head| == |line| + 2 + |via| && |via| == 9 + |id| + 2;
    BreakAt(head, j);
    if 0 <= j && j + 2 <= |line| {
      FreeAt(line, j);
    } else if |line| + 11 <= j && j + 2 <= |line| + 11 + |id| {
      FreeAt(id, j - |line| - 11);
    }
  }

  function Head(line: Bytes, id: Bytes): Bytes {
    line + CRLF + ViaLine(id)
  }

  lemma AtInPrefix(s: Bytes, head: Bytes, pattern: Bytes, j: int)
    requires head <= s && j + |pattern| <= |head|
    ensures At(s, pattern, j) <==> At(head, pattern, j)
  {
    if 0 <= j {
      assert head == s[..|head|];
      SliceOfTake(s, |head|, j, j + |pattern|);
    }
  }

  /** A blank line can only come after the Via line, so the header always covers it. */
  lemma BlankAfterHead(s: Bytes, line: Bytes, id: Bytes, p: nat)
    requires LineBreakFree(line) && LineBreakFree(id) && Head(line, id) <= s && At(s, BLANK_LINE, p)
    ensures p >= |Head(line, id)| - 2
  {
    var head := Head(line, id);
    if p + 4 <= |head| {
      BlankAt(s, p);
      BreakAt(s, p);
      BreakAt(s, p + 2);
      AtInPrefix(s, head, CRLF, p);
      AtInPrefix(s, head, CRLF, p + 2);
      BreaksInHead(line, id, p);
      BreaksInHead(line, id, p + 2);
      assert false;
    }
    if p + 3 == |head| {
      BlankAt(s, p);
      BreakAt(s, p);
      AtInPrefix(s, head, CRLF, p);
      BreaksInHead(line, id, p);
      assert false;
    }
  }

  /** The first line break after the head's first line, and the one after that, are the head's own. */
  lemma HeadBreaks(h: Bytes, line: Bytes, id: Bytes, j: nat)
    requires LineBreakFree(line) && LineBreakFree(id) && Head(line, id) <= h && j + 2 <= |Head(line, id)|
    ensures At(h, CRLF, j) <==> j == |line| || j == |line| + |ViaLine(id)|
  {
    AtInPrefix(h, Head(line, id), CRLF, j);
    BreaksInHead(line, id, j);
  }

  lemma HeadSlices(h: Bytes, line: Bytes, id: Bytes)
    requires Head(line, id) <= h
    ensures h[..|line|] == line
    ensures h[|line| + 2..][..|ViaLine(id)| - 2] == VIA_VALUE + id
  {
    var via := ViaLine(id);
    var head := Head(line, id);
    assert head == h[..|head|] && |head| == |line| + 2 + |via|;
    assert head[|line| + 2..|head| - 2] == VIA_VALUE + id;
    SliceOfTake(h, |head|, |line| + 2, |head| - 2);
    SliceOfDrop(h, |line| + 2, 0, |via| - 2);
    SliceOfTake(h, |head|, 0, |line|);
  }

  lemma SplitHead(h: Bytes, line: Bytes, id: Bytes)
    requires LineBreakFree(line) && LineBreakFree(id) && Head(line, id) <= h
    ensures |SplitLines(h)| >= 2 && SplitLines(h)[0] == line && SplitLines(h)[1] == VIA_VALUE + id
  {
    var n := |ViaLine(id)| - 2;
    forall j: nat | j <= |line| ensures At(h, CRLF, j) <==> j == |line| {
      HeadBreaks(h, line, id, j);
    }
    FindUnique(h, CRLF, |line|);
    var rest := h[|line| + 2..];
    forall j: nat | j <= n ensures At(rest, CRLF, j) <==> j == n {
      SliceOfDrop(h, |line| + 2, j, j + 2);
      HeadBreaks(h, line, id, |line| + 2 + j);
    }
    FindUnique(rest, CRLF, n);
    HeadSlices(h, line, id);
  }

  lemma OwnViaNamesServer(id: Bytes)
    ensures NamesServer(VIA_VALUE + id, id)
  {
    var line := VIA_VALUE + id;
    assert Lower(line)[..4] == VIA_NAME;
    assert line[9..9 + |id|] == id;
    assert At(line, id, 9);
  }

  lemma HeadInHeader(s: Bytes, line: Bytes, id: Bytes)
    requires LineBreakFree(line) && LineBreakFree(id) && Head(line, id) <= s
    ensures Head(line, id) <= s[..HeaderLength(s)]
  {
    var b := Find(s, BLANK_LINE);
    if b.Some? {
      BlankAfterHead(s, line, id, b.value);
    }
  }

  /** A header line with the server's name rejects a request other than CONNECT. */
  lemma LoopOutcome(l: Listener, s: Bytes, i: nat)
    requires var lines := SplitLines(s[..HeaderLength(s)]);
      i < |lines| && NamesServer(lines[i], l.serverId) && !StartsWith(lines[0], CONNECT)
    ensures Outcome(l, s).Err?
    ensures Utf8.Valid(s[..HeaderLength(s)]) && TargetOf(l, SplitLines(s[..HeaderLength(s)])[0]).Ok? ==> Outcome(l, s) == Err(LoopDetected)
  {
    var lines := SplitLines(s[..HeaderLength(s)]);
    assert lines[i] in lines;
  }

  /** Whatever starts with a request line and this server's Via line is rejected. */
  lemma OwnViaRejected(l: Listener, s: Bytes, line: Bytes)
    requires LineBreakFree(line) && LineBreakFree(l.serverId) && !StartsWith(line, CONNECT)
    requires Head(line, l.serverId) <= s
    ensures Outcome(l, s).Err?
    ensures Utf8.Valid(s[..HeaderLength(s)]) && TargetOf(l, line).Ok? ==> Outcome(l, s) == Err(LoopDetected)
  {
    var h := s[..HeaderLength(s)];
    HeadInHeader(s, line, l.serverId);
    SplitHead(h, line, l.serverId);
    OwnViaNamesServer(l.serverId);
    LoopOutcome(l, s, 1);
  }

  /** Inserting the Via line moves the blank line by its length. */
  lemma BlankMoves(data: Bytes, id: Bytes)
    requires Find(data, CRLF).Some? && LineBreakFree(id)
    ensures HeaderLength(Inserted(data, id)) == HeaderLength(data) + |ViaLine(id)|
  {
    var i, via := Find(data, CRLF).value, ViaLine(id);
    var t := Inserted(data, id);
    RequestLineFree(data);
    var line := data[..i];
    assert data[..i + 2] == line + data[i..i + 2];
    assert t == Head(line, id) + data[i + 2..];
    var b := Find(data, BLANK_LINE);
    FirstBreakInHeader(data);
    forall q: int | i + |via| <= q
      ensures At(t, BLANK_LINE, q) <==> At(data, BLANK_LINE, q - |via|)
    {
      BlankShift(data, t, i, via, q);
    }
    forall q: nat | q < i + |via| ensures !At(t, BLANK_LINE, q) {
      if At(t, BLANK_LINE, q) { BlankAfterHead(t, line, id, q); }
    }
    if b.Some? {
      forall q: nat | q < b.value + |via| ensures !At(t, BLANK_LINE, q) {
        if i + |via| <= q { assert !At(data, BLANK_LINE, q - |via|); }
      }
      FindUnique(t, BLANK_LINE, b.value + |via|);
    } else {
      assert Find(t, BLANK_LINE).None?;
    }
  }

  lemma BlankShift(data: Bytes, t: Bytes, i: nat, via: Bytes, q: int)
    requires At(data, CRLF, i) && |via| >= 2 && via[|via| - 2..] == CRLF
    requires t == data[..i + 2] + via + data[i + 2..] && i + |via| <= q
    ensures At(t, BLANK_LINE, q) <==> At(data, BLANK_LINE, q - |via|)
  {
    BlankAt(t, q);
    BlankAt(data, q - |via|);
    BreakAt(data, i);
    assert via[|via| - 2] == CRLF[0] && via[|via| - 1] == CRLF[1];
    assert forall m :: i + 2 + |via| <= m < |t| ==> t[m] == data[m - |via|];
    assert t[i + |via|] == CRLF[0] && t[i + 1 + |via|] == CRLF[1];
  }

  lemma RequestLineFree(data: Bytes)
    requires Find(data, CRLF).Some?
    ensures LineBreakFree(data[..Find(data, CRLF).value])
    ensures RequestLine(data) == data[..Find(data, CRLF).value]
  {
    var i := Find(data, CRLF).value;
    forall j | 0 <= j ensures !At(data[..i], CRLF, j) {
      if j + 2 <= i { AtInPrefix(data, data[..i], CRLF, j); }
    }
    FirstBreakInHeader(data);
    SliceOfTake(data, HeaderLength(data), 0, i);
  }

  lemma WrapValid(before: Bytes, id: Bytes, after: Bytes)
    requires Utf8.Ascii(before) && Utf8.Ascii(after) && Utf8.Valid(id)
    ensures Utf8.Valid(before + id + after)
  {
    Utf8.AsciiValid(before);
    Utf8.AsciiValid(after);
    Utf8.ConcatValid(before, id);
    Utf8.ConcatValid(before + id, after);
  }

  lemma ViaValid(id: Bytes)
    requires Utf8.Valid(id)
    ensures Utf8.Valid(ViaLine(id))
  {
    WrapValid(VIA_VALUE, id, CRLF);
  }

  lemma SpliceValid(h: Bytes, k: nat, v: Bytes)
    requires Utf8.Valid(h) && Utf8.Valid(v) && 0 < k <= |h| && h[k - 1] <= 0x7F
    ensures Utf8.Valid(h[..k] + v + h[k..])
  {
    Utf8.CutValid(h, k);
    Utf8.ConcatValid(h[..k], v);
    Utf8.ConcatValid(h[..k] + v, h[k..]);
  }

  lemma TakeSplice(s: Bytes, k: nat, v: Bytes, n: nat)
    requires k <= n <= |s|
    ensures (s[..k] + v + s[k..])[..n + |v|] == s[..n][..k] + v + s[..n][k..]
  {
  }

  lemma FirstBreakEnds(data: Bytes)
    requires Find(data, CRLF).Some?
    ensures Find(data, CRLF).value + 2 <= HeaderLength(data) && data[Find(data, CRLF).value + 1] == LF
  {
    var i := Find(data, CRLF).value;
    FirstBreakInHeader(data);
    assert data[i..i + 2][1] == LF;
  }

  lemma InsertedHeader(data: Bytes, id: Bytes)
    requires Find(data, CRLF).Some? && LineBreakFree(id)
    ensures var k, t, header := Find(data, CRLF).value + 2, Inserted(data, id), data[..HeaderLength(data)];
      k <= |header| && header[k - 1] == LF && t[..HeaderLength(t)] == header[..k] + ViaLine(id) + header[k..]
  {
    FirstBreakEnds(data);
    TakeSplice(data, Find(data, CRLF).value + 2, ViaLine(id), HeaderLength(data));
    BlankMoves(data, id);
  }

  /** The rewritten header is still valid text, so the loop check is reached. */
  lemma InsertedHeaderValid(data: Bytes, id: Bytes)
    requires Find(data, CRLF).Some? && LineBreakFree(id) && Utf8.Valid(id)
    requires Utf8.Valid(data[..HeaderLength(data)])
    ensures Utf8.Valid(Inserted(data, id)[..HeaderLength(Inserted(data, id))])
  {
    var k, header, via := Find(data, CRLF).value + 2, data[..HeaderLength(data)], ViaLine(id);
    InsertedHeader(data, id);
    ViaValid(id);
    SpliceValid(header, k, via);
  }

  /**
   * A forwarded request that comes back to a listener of the same id is always rejected as a loop; cut
   * anywhere after its Via line it is still rejected, if not for the loop then for being cut.
   */
  lemma LoopAlwaysRejected(l: Listener, data: Bytes, n: nat)
    requires Outcome(l, data).Ok? && !StartsWith(RequestLine(data), CONNECT) && Find(data, CRLF).Some?
    requires LineBreakFree(l.serverId) && Utf8.Valid(l.serverId)
    requires |Head(RequestLine(data), l.serverId)| <= n <= |Inserted(data, l.serverId)|
    ensures Outcome(l, data).value.cache == Some(Inserted(data, l.serverId))
    ensures Outcome(l, Inserted(data, l.serverId)) == Err(LoopDetected)
    ensures Outcome(l, Inserted(data, l.serverId)[..n]).Err?
  {
    var i, line := Find(data, CRLF).value, RequestLine(data);
    var t := Inserted(data, l.serverId);
    ViaInserted(l, data);
    RequestLineFree(data);
    assert data[..i + 2] == line + data[i..i + 2];
    assert t == Head(line, l.serverId) + data[i + 2..];
    OwnViaRejected(l, t[..n], line);
    InsertedHeaderValid(data, l.serverId);
    OwnViaRejected(l, t, line);
  }
}
