// The pairing request: the body the phone posts, the parser that splits it into the three
// credentials, and the reply of the pairing server.
module PairingParser {
  import opened Wrappers
  import opened CStrings

  const BLANK_LINE: string := "\r\n\r\n"

  // ---- Specification ----

  // The lines of a body: one more than it has newlines.
  function Lines(body: string): (ls: seq<string>)
    ensures |ls| > 0
  {
    var i := IndexOf(body, '\n');
    if i == |body| then [body] else [body[..i]] + Lines(body[i + 1..])
  }

  // The line a field is taken from: its own line when that line is terminated; an
  // unterminated last line that is not empty serves its own field and every later one.
  function Source(body: string, field: nat): Option<string> {
    Pick(Lines(body), field)
  }

  function Pick(ls: seq<string>, field: nat): Option<string>
    requires |ls| > 0
  {
    if field < |ls| - 1 then Some(ls[field])
    else if ls[|ls| - 1] != "" then Some(ls[|ls| - 1])
    else None
  }

  function Clean(line: string): string { Before(Take(line, 255), '\r') }

  function Body(request: string): Option<string> {
    match Search(request, BLANK_LINE)
    case None => None
    case Some(i) => Some(request[i + 4..])
  }

  function LineOf(request: string, field: nat): Option<string> {
    match Body(request)
    case None => None
    case Some(body) =>
      match Source(body, field)
      case None => None
      case Some(line) => Some(Clean(line))
  }

  // The value a field has after parsing when the caller cleared it first.
  function Value(request: string, field: nat, capacity: nat): string {
    match LineOf(request, field)
    case None => ""
    case Some(line) => Take(line, capacity)
  }

  const USER: nat := 0
  const SSID: nat := 1
  const PASS: nat := 2

  // ---- The parser ----

  lemma PickStep(line: string, ls: seq<string>, field: nat)
    requires |ls| > 0
    ensures Pick([line] + ls, field + 1) == Pick(ls, field)
  {
  }

  // What the parser has not read yet after one more line.
  function Advance(rest: string): string {
    var i := IndexOf(rest, '\n');
    if i < |rest| then rest[i + 1..] else rest
  }

  // The fields from number `k` on are taken from `rest`.
  ghost predicate Pending(body: string, k: nat, rest: string) {
    forall j: nat :: Source(body, k + j) == Source(rest, j)
  }

  lemma PendingStep(body: string, k: nat, rest: string)
    requires Pending(body, k, rest) && rest != ""
    ensures Source(body, k) == Some(rest[..IndexOf(rest, '\n')]) && Pending(body, k + 1, Advance(rest))
  {
    var i := IndexOf(rest, '\n');
    assert Source(body, k + 0) == Source(rest, 0);
    assert i == |rest| ==> rest[..i] == rest;
    forall j: nat ensures Source(body, k + 1 + j) == Source(Advance(rest), j) {
      assert Source(body, k + (1 + j)) == Source(rest, 1 + j);
      if i < |rest| {
        PickStep(rest[..i], Lines(rest[i + 1..]), j);
      }
    }
  }

  // What a buffer of the given size holds after a field was stored, or was left alone.
  ghost predicate Holds(buffer: seq<char>, before: seq<char>, line: Option<string>) {
    match line
    case None => buffer == before
    case Some(text) => |buffer| > 0 && buffer == Pad(Take(text, |buffer| - 1), |buffer|)
  }

  // Copies one line out of the request, up to 255 characters. A pointer into the request
  // is what it points at: the rest of the request.
  method CopyLine(ptr: string, line: array<char>, lineEnd: Option<nat>)
    requires line.Length == 256 && Terminated(ptr)
    requires var i := IndexOf(Text(ptr), '\n'); lineEnd == if i < |Text(ptr)| then Some(i) else None
    modifies line
    ensures Terminated(line[..]) && Text(line[..]) == Take(Text(ptr)[..IndexOf(Text(ptr), '\n')], 255)
  {
    ghost var copied := Take(Text(ptr)[..IndexOf(Text(ptr), '\n')], 255);
    var len := if lineEnd.Some? && lineEnd.value < 256 then lineEnd.value else 255;
    StrNCpy(line, ptr, len);
    line[len] := NUL;
    assert Take(Text(ptr), len) == copied;
    assert line[..len] == Pad(copied, len);
    assert line[..] == copied + line[|copied|..];
    TextOf(copied, line[|copied|..]);
  }

  // Cuts a string in place at its first carriage return.
  method CutReturn(line: array<char>)
    requires Terminated(line[..])
    modifies line
    ensures Terminated(line[..]) && Text(line[..]) == Before(old(Text(line[..])), '\r')
  {
    ghost var kept := Before(Text(line[..]), '\r');
    var crlf := StrChr(line[..], '\r');
    if crlf.Some? {
      line[crlf.value] := NUL;
      assert line[..] == kept + line[|kept|..];
      TextOf(kept, line[|kept|..]);
    }
  }

  // strncpy into a field, then a NUL in its last place.
  method StoreField(field: array<char>, line: array<char>)
    requires field != line && field.Length > 0 && Terminated(line[..])
    modifies field
    ensures Holds(field[..], old(field[..]), Some(Text(line[..])))
  {
    StrNCpy(field, line[..], field.Length - 1);
    field[field.Length - 1] := NUL;
  }

  // One pass of the loop up to the store: the cleaned line, and the place to go on from.
  method NextLine(ptr: string, line: array<char>) returns (next: string)
    requires line.Length == 256 && Terminated(ptr)
    modifies line
    ensures Terminated(line[..]) && Text(line[..]) == Clean(Text(ptr)[..IndexOf(Text(ptr), '\n')])
    ensures Terminated(next) && Text(next) == Advance(Text(ptr))
  {
    var lineEnd := StrChr(ptr, '\n');
    CopyLine(ptr, line, lineEnd);
    CutReturn(line);
    next := ptr;
    if lineEnd.Some? {
      SuffixText(ptr, lineEnd.value + 1);
      next := ptr[lineEnd.value + 1..];
    }
  }

  ghost predicate Stored(user: seq<char>, user0: seq<char>, ssid: seq<char>, ssid0: seq<char>,
                         pass: seq<char>, pass0: seq<char>, text: string, k: nat)
  {
    && Holds(user, user0, if k > USER then LineOf(text, USER) else None)
    && Holds(ssid, ssid0, if k > SSID then LineOf(text, SSID) else None)
    && Holds(pass, pass0, if k > PASS then LineOf(text, PASS) else None)
  }

  // The parser stands before line `k` of the body, with `rest` unread.
  ghost predicate Parsing(text: string, k: nat, rest: string) { Body(text).Some? && Pending(Body(text).value, k, rest) }

  lemma ParsingStarts(text: string)
    requires Body(text).Some?
    ensures Parsing(text, 0, Body(text).value)
  {
  }

  lemma ParsingStep(text: string, k: nat, rest: string)
    requires Parsing(text, k, rest) && rest != ""
    ensures LineOf(text, k) == Some(Clean(rest[..IndexOf(rest, '\n')])) && Parsing(text, k + 1, Advance(rest))
  {
    PendingStep(Body(text).value, k, rest);
  }

  lemma ParsingEnds(text: string, k: nat)
    requires Parsing(text, k, "")
    ensures forall field: nat :: field >= k ==> LineOf(text, field) == None
  {
    NothingPending(Body(text).value, k);
  }

  lemma StoredStep(user: seq<char>, user1: seq<char>, user0: seq<char>,
                   ssid: seq<char>, ssid1: seq<char>, ssid0: seq<char>,
                   pass: seq<char>, pass1: seq<char>, pass0: seq<char>, text: string, k: nat)
    requires Stored(user1, user0, ssid1, ssid0, pass1, pass0, text, k) && LineOf(text, k).Some?
    requires Holds(user, user1, if k == USER then LineOf(text, k) else None)
    requires Holds(ssid, ssid1, if k == SSID then LineOf(text, k) else None)
    requires Holds(pass, pass1, if k == PASS then LineOf(text, k) else None)
    ensures Stored(user, user0, ssid, ssid0, pass, pass0, text, k + 1)
  {
  }

  // The store of one line, by line number.
  method StoreLine(lineNum: nat, line: array<char>, wifiSsid: array<char>, wifiPass: array<char>, userId: array<char>)
    requires lineNum < 3 && wifiSsid.Length == 32 && wifiPass.Length == 64 && userId.Length == 256
    requires line !in {wifiSsid, wifiPass, userId} && Terminated(line[..])
    requires wifiSsid != wifiPass && wifiSsid != userId && wifiPass != userId
    modifies wifiSsid, wifiPass, userId
    ensures Holds(userId[..], old(userId[..]), if lineNum == USER then Some(Text(line[..])) else None)
    ensures Holds(wifiSsid[..], old(wifiSsid[..]), if lineNum == SSID then Some(Text(line[..])) else None)
    ensures Holds(wifiPass[..], old(wifiPass[..]), if lineNum == PASS then Some(Text(line[..])) else None)
  {
    match lineNum {
      case 0 => StoreField(userId, line);
      case 1 => StoreField(wifiSsid, line);
      case _ => StoreField(wifiPass, line);
    }
  }

  // One pass of the loop: the next line is read, cleaned and stored.
  method ParseLine(ptr: string, line: array<char>, lineNum: nat, wifiSsid: array<char>, wifiPass: array<char>,
                   userId: array<char>, ghost text: string, ghost user0: seq<char>, ghost ssid0: seq<char>, ghost pass0: seq<char>)
    returns (next: string)
    requires lineNum < 3 && line.Length == 256 && wifiSsid.Length == 32 && wifiPass.Length == 64 && userId.Length == 256
    requires line !in {wifiSsid, wifiPass, userId}
    requires wifiSsid != wifiPass && wifiSsid != userId && wifiPass != userId
    requires Terminated(ptr) && ptr[0] != NUL && Parsing(text, lineNum, Text(ptr))
    requires Stored(userId[..], user0, wifiSsid[..], ssid0, wifiPass[..], pass0, text, lineNum)
    modifies line, wifiSsid, wifiPass, userId
    ensures Terminated(next) && Parsing(text, lineNum + 1, Text(next))
    ensures Stored(userId[..], user0, wifiSsid[..], ssid0, wifiPass[..], pass0, text, lineNum + 1)
  {
    ParsingStep(text, lineNum, Text(ptr));
    next := NextLine(ptr, line);
    ghost var user1, ssid1, pass1 := userId[..], wifiSsid[..], wifiPass[..];
    StoreLine(lineNum, line, wifiSsid, wifiPass, userId);
    StoredStep(userId[..], user1, user0, wifiSsid[..], ssid1, ssid0, wifiPass[..], pass1, pass0, text, lineNum);
  }

  method ParseConfigureRequest(request: string, wifiSsid: array<char>, wifiPass: array<char>, userId: array<char>)
    requires wifiSsid.Length == 32 && wifiPass.Length == 64 && userId.Length == 256
    requires wifiSsid != wifiPass && wifiSsid != userId && wifiPass != userId
    requires Terminated(request)
    modifies wifiSsid, wifiPass, userId
    ensures Holds(userId[..], old(userId[..]), LineOf(Text(request), USER))
    ensures Holds(wifiSsid[..], old(wifiSsid[..]), LineOf(Text(request), SSID))
    ensures Holds(wifiPass[..], old(wifiPass[..]), LineOf(Text(request), PASS))
  {
    ghost var text := Text(request);
    ghost var user0, ssid0, pass0 := userId[..], wifiSsid[..], wifiPass[..];
    var bodyStart := StrStr(request, BLANK_LINE);
    if bodyStart.None? {
      return;
    }
    SuffixText(request, bodyStart.value + 4);
    var ptr := request[bodyStart.value + 4..];
    assert Body(text) == Some(Text(ptr));
    ParsingStarts(text);
    var line := new char[256];
    var lineNum := 0;
    while ptr[0] != NUL && lineNum < 3
      invariant lineNum <= 3 && Terminated(ptr) && Parsing(text, lineNum, Text(ptr))
      invariant Stored(userId[..], user0, wifiSsid[..], ssid0, wifiPass[..], pass0, text, lineNum)
      decreases 3 - lineNum
    {
      ptr := ParseLine(ptr, line, lineNum, wifiSsid, wifiPass, userId, text, user0, ssid0, pass0);
      lineNum := lineNum + 1;
    }
    if lineNum < 3 {
      ParsingEnds(text, lineNum);
    }
  }

  lemma NothingPending(body: string, k: nat)
    requires Pending(body, k, "")
    ensures forall field: nat :: field >= k ==> Source(body, field) == None
  {
    forall field: nat | field >= k ensures Source(body, field) == None {
      assert Source(body, k + (field - k)) == Source("", field - k);
    }
  }

  lemma SuffixText(s: string, from: nat)
    requires Terminated(s) && from <= |Text(s)|
    ensures Terminated(s[from..]) && Text(s[from..]) == Text(s)[from..]
  {
    var n := |Text(s)|;
    assert s[from..][..n - from] == Text(s)[from..];
    IndexOfIs(s[from..], NUL, n - from);
  }

  // ---- The pairing server ----

  datatype Reply =
    | Silence
    | NotFound
    | BadRequest
    | Configured(userId: string, wifiSsid: string, wifiPass: string)

  function Answer(received: string): Reply {
    var text := Text(received + [NUL]);
    if received == "" then Silence
    else if Search(text, "POST /configure").None? then NotFound
    else
      var user, ssid, pass := Value(text, USER, 255), Value(text, SSID, 31), Value(text, PASS, 63);
      if ssid != "" && pass != "" && user != "" then Configured(user, ssid, pass) else BadRequest
  }

  lemma HeldText(buffer: seq<char>, before: seq<char>, line: Option<string>)
    requires Holds(buffer, before, line) && |before| > 0 && before[0] == NUL
    requires line.Some? ==> NUL !in line.value
    ensures Terminated(buffer)
    ensures Text(buffer) == (match line case None => "" case Some(text) => Take(text, |buffer| - 1))
  {
    match line
    case None =>
      assert buffer == "" + buffer;
      TextOf("", buffer);
    case Some(text) =>
      var kept := Take(text, |buffer| - 1);
      assert buffer == kept + seq(|buffer| - |kept|, _ => NUL);
      TextOf(kept, seq(|buffer| - |kept|, _ => NUL));
  }

  method ReadField(field: array<char>, ghost before: seq<char>, ghost text: string, ghost k: nat) returns (value: string)
    requires field.Length > 0 && Holds(field[..], before, LineOf(text, k)) && |before| > 0 && before[0] == NUL
    requires NUL !in text
    ensures value == Value(text, k, field.Length - 1)
  {
    LineHasNoNul(text, k);
    HeldText(field[..], before, LineOf(text, k));
    value := ReadText(field);
  }

  // The three credentials of a request, read into cleared fields.
  method ReadCredentials(request: string) returns (user: string, ssid: string, pass: string)
    requires Terminated(request)
    ensures user == Value(Text(request), USER, 255)
    ensures ssid == Value(Text(request), SSID, 31)
    ensures pass == Value(Text(request), PASS, 63)
  {
    var wifiSsid := new char[32](_ => NUL);
    var wifiPass := new char[64](_ => NUL);
    var userId := new char[256](_ => NUL);
    ghost var ssid0, pass0, user0 := wifiSsid[..], wifiPass[..], userId[..];
    ParseConfigureRequest(request, wifiSsid, wifiPass, userId);
    user := ReadField(userId, user0, Text(request), USER);
    ssid := ReadField(wifiSsid, ssid0, Text(request), SSID);
    pass := ReadField(wifiPass, pass0, Text(request), PASS);
  }

  // handle_pairing_client on what one receive delivered.
  method HandlePairingClient(received: string) returns (reply: Reply)
    requires |received| <= 1023
    ensures reply == Answer(received)
  {
    if |received| == 0 {
      return Silence;
    }
    var buffer := new char[1024](_ => NUL);
    forall k | 0 <= k < |received| { buffer[k] := received[k]; }
    buffer[|received|] := NUL;
    var request := buffer[..];
    BufferText(request, received);
    var found := StrStr(request, "POST /configure");
    if found.None? {
      return NotFound;
    }
    var user, ssid, pass := ReadCredentials(request);
    if |ssid| > 0 && |pass| > 0 && |user| > 0 {
      reply := Configured(user, ssid, pass);
    } else {
      reply := BadRequest;
    }
  }

  lemma BufferText(buffer: seq<char>, received: string)
    requires |received| < |buffer| && buffer[..|received|] == received && buffer[|received|] == NUL
    ensures Terminated(buffer) && Text(buffer) == Text(received + [NUL])
  {
    var n := IndexOf(received + [NUL], NUL);
    assert (received + [NUL])[|received|] == NUL;
    assert n <= |received|;
    assert buffer[..n] == (received + [NUL])[..n];
    IndexOfIs(buffer, NUL, n);
  }

  method ReadText(a: array<char>) returns (text: string)
    requires Terminated(a[..])
    ensures text == Text(a[..])
  {
    var n := 0;
    while a[n] != NUL
      invariant n <= IndexOf(a[..], NUL) && NUL !in a[..n]
      decreases a.Length - n
    {
      n := n + 1;
    }
    assert a[..][..n] == a[..n];
    IndexOfIs(a[..], NUL, n);
    text := a[..n];
  }

  lemma {:induction false} LinesHaveNoNul(body: string)
    requires NUL !in body
    ensures forall i :: 0 <= i < |Lines(body)| ==> NUL !in Lines(body)[i]
    decreases |body|
  {
    var i := IndexOf(body, '\n');
    if i < |body| { LinesHaveNoNul(body[i + 1..]); }
  }

  lemma LineHasNoNul(text: string, field: nat)
    requires NUL !in text
    ensures LineOf(text, field).Some? ==> NUL !in LineOf(text, field).value
  {
    if Body(text).Some? { LinesHaveNoNul(Body(text).value); }
  }

  // ---- What the server makes of a request ----

  function Join(ls: seq<string>): string
    requires |ls| > 0
  {
    if |ls| == 1 then ls[0] else ls[0] + "\n" + Join(ls[1..])
  }

  lemma {:induction false} LinesOfJoin(ls: seq<string>)
    requires |ls| > 0 && forall i :: 0 <= i < |ls| ==> '\n' !in ls[i]
    ensures Lines(Join(ls)) == ls
  {
    if |ls| == 1 {
      IndexOfIs(ls[0], '\n', |ls[0]|);
    } else {
      LinesJoin(ls[0], Join(ls[1..]));
      LinesOfJoin(ls[1..]);
      assert [ls[0]] + ls[1..] == ls;
    }
  }

  // The line without what follows its first CR, of at most 255 characters and of at most
  // the capacity.
  predicate IsCut(line: string, capacity: nat, field: string) {
    && field <= line && |field| <= capacity && |field| <= 255 && '\r' !in field
    && (field == line || |field| == capacity || |field| == 255 || line[|field|] == '\r')
  }

  lemma CleanIsCut(line: string, capacity: nat)
    ensures IsCut(line, capacity, Take(Clean(line), capacity))
  {
    var cut := Take(line, 255);
    var n := IndexOf(cut, '\r');
    assert cut[..n] <= line;
  }

  // The line of each field: its own if another one follows, and otherwise the last line,
  // unless that is empty.
  predicate IsField(ls: seq<string>, k: nat, capacity: nat, field: string)
    requires |ls| > 0
  {
    var last := ls[|ls| - 1];
    if k < |ls| - 1 then IsCut(ls[k], capacity, field)
    else if last != "" then IsCut(last, capacity, field)
    else field == ""
  }

  lemma FieldIs(header: string, ls: seq<string>, k: nat, capacity: nat)
    requires Plain(header) && |ls| > 0 && forall i :: 0 <= i < |ls| ==> '\n' !in ls[i]
    ensures IsField(ls, k, capacity, Value(header + BLANK_LINE + Join(ls), k, capacity))
  {
    BodyOf(header, Join(ls));
    LinesOfJoin(ls);
    if k < |ls| - 1 { CleanIsCut(ls[k], capacity); } else { CleanIsCut(ls[|ls| - 1], capacity); }
  }

  // Exactly what is answered to a request of any number of lines: nothing to an empty one,
  // 404 without the route, and otherwise the three fields if none is empty, or 400.
  lemma ServerAnswers(header: string, ls: seq<string>)
    requires Plain(header) && |ls| > 0 && forall i :: 0 <= i < |ls| ==> '\n' !in ls[i]
    requires '\0' !in header + "\r\n\r\n" + Join(ls)
    ensures Answer("") == Silence
    ensures var request := header + "\r\n\r\n" + Join(ls); var reply := Answer(request);
      && (reply == NotFound <==> forall i :: 0 <= i <= |request| ==> !Occurs(request, "POST /configure", i))
      && (reply.Configured? ==>
            && IsField(ls, 0, 255, reply.userId) && IsField(ls, 1, 31, reply.wifiSsid) && IsField(ls, 2, 63, reply.wifiPass)
            && reply.userId != "" && reply.wifiSsid != "" && reply.wifiPass != "")
      && (reply == BadRequest ==> IsField(ls, 0, 255, "") || IsField(ls, 1, 31, "") || IsField(ls, 2, 63, ""))
      && reply != Silence
  {
    var request := header + "\r\n\r\n" + Join(ls);
    TextOf(request, [NUL]);
    FieldIs(header, ls, 0, 255);
    FieldIs(header, ls, 1, 31);
    FieldIs(header, ls, 2, 63);
  }

  // Without a blank line there is no body, and only what precedes the first NUL counts.
  lemma NoBody(received: string, tail: string)
    requires received != "" && '\0' !in received
    ensures Answer(received + "\0" + tail) == Answer(received)
    ensures (forall i :: 0 <= i <= |received| ==> !Occurs(received, "\r\n\r\n", i)) ==> Answer(received) in {NotFound, BadRequest}
  {
    TextOf(received, [NUL]);
    TextOf(received, "\0" + tail + [NUL]);
    assert received + "\0" + tail + [NUL] == received + ("\0" + tail + [NUL]);
  }

  // ---- Round trip with the phone ----

  // The body the application posts.
  function Print(user: string, ssid: string, pass: string): string {
    user + "\n" + ssid + "\n" + pass
  }

  lemma LinesOfPrint(user: string, ssid: string, pass: string)
    requires '\n' !in user && '\n' !in ssid && '\n' !in pass
    ensures Lines(Print(user, ssid, pass)) == [user, ssid, pass]
  {
    assert Print(user, ssid, pass) == user + "\n" + (ssid + "\n" + pass);
    LinesJoin(user, ssid + "\n" + pass);
    LinesJoin(ssid, pass);
    IndexOfIs(pass, '\n', |pass|);
    calc {
      Lines(Print(user, ssid, pass));
      [user] + Lines(ssid + "\n" + pass);
      [user] + ([ssid] + Lines(pass));
      [user] + ([ssid] + [pass]);
      [user, ssid, pass];
    }
  }

  lemma LinesJoin(line: string, rest: string)
    requires '\n' !in line
    ensures Lines(line + "\n" + rest) == [line] + Lines(rest)
  {
    var body := line + "\n" + rest;
    assert body[..|line|] == line;
    IndexOfIs(body, '\n', |line|);
    assert body[|line| + 1..] == rest;
  }

  // A header block that does not itself contain or complete a blank line.
  predicate Plain(header: string) {
    && Search(header, BLANK_LINE).None?
    && !(|header| >= 2 && header[|header| - 2..] == "\r\n")
  }

  lemma Mismatch(s: string, pattern: string, i: nat, k: nat)
    requires i + |pattern| <= |s| && k < |pattern| && s[i + k] != pattern[k]
    ensures !Occurs(s, pattern, i)
  {
    assert s[i..i + |pattern|][k] == s[i + k];
  }

  lemma NoBlankLineAt(header: string, body: string, i: nat)
    requires Plain(header) && i < |header|
    ensures !Occurs(header + BLANK_LINE + body, BLANK_LINE, i)
  {
    var request := header + BLANK_LINE + body;
    var h := |header|;
    if i + 4 <= h {
      assert !Occurs(header, BLANK_LINE, i);
      assert request[i..i + 4] == header[i..i + 4];
    } else if i + 2 == h {
      Mismatch(request, BLANK_LINE, i, if header[i] != '\r' then 0 else 1);
    } else {
      assert request[h] == '\r' && BLANK_LINE[h - i] == '\n';
      Mismatch(request, BLANK_LINE, i, h - i);
    }
  }

  // The parser finds the body that was sent if and only if the header block is plain.
  lemma BodyOf(header: string, body: string)
    ensures Body(header + BLANK_LINE + body) == Some(body) <==> Plain(header)
  {
    var request := header + BLANK_LINE + body;
    var h := |header|;
    assert Occurs(request, BLANK_LINE, h);
    if Plain(header) {
      forall i | 0 <= i < h ensures !Occurs(request, BLANK_LINE, i) {
        NoBlankLineAt(header, body, i);
      }
      SearchIs(request, BLANK_LINE, h);
      assert request[h + 4..] == body;
    } else {
      var i := if Search(header, BLANK_LINE).Some? then Search(header, BLANK_LINE).value else h - 2;
      assert Occurs(request, BLANK_LINE, i) by {
        if i == h - 2 && Search(header, BLANK_LINE).None? {
          assert request[i..i + 4] == header[i..] + "\r\n";
        } else {
          assert request[i..i + 4] == header[i..i + 4];
        }
      }
      assert Search(request, BLANK_LINE).value <= i < h;
    }
  }

  // A field survives the parser exactly when it fits and holds no carriage return.
  predicate Fits(field: string, capacity: nat) {
    |field| <= capacity && '\r' !in field
  }

  lemma CleanKeeps(field: string, capacity: nat)
    requires capacity <= 255
    ensures Take(Clean(field), capacity) == field <==> Fits(field, capacity)
  {
    if Fits(field, capacity) { IndexOfIs(field, '\r', |field|); }
    if Take(Clean(field), capacity) == field {
      assert |Clean(field)| <= |Take(field, 255)| <= |field|;
    }
  }

  lemma PrintedLines(header: string, user: string, ssid: string, pass: string)
    requires Plain(header) && '\n' !in user && '\n' !in ssid && '\n' !in pass
    ensures var request := header + BLANK_LINE + Print(user, ssid, pass);
      && LineOf(request, USER) == Some(Clean(user)) && LineOf(request, SSID) == Some(Clean(ssid))
      && (LineOf(request, PASS) == if pass == "" then None else Some(Clean(pass)))
  {
    BodyOf(header, Print(user, ssid, pass));
    LinesOfPrint(user, ssid, pass);
  }

  lemma FieldKept(request: string, k: nat, field: string, capacity: nat)
    requires capacity <= 255 && LineOf(request, k) == (if k == PASS && field == "" then None else Some(Clean(field)))
    ensures Value(request, k, capacity) == field <==> Fits(field, capacity)
  {
    CleanKeeps(field, capacity);
  }

  // Parsing what the application prints returns exactly the three fields if and only if
  // they fit the buffers of the device and hold no carriage return.
  lemma RoundTrip(header: string, user: string, ssid: string, pass: string)
    requires Plain(header) && '\n' !in user && '\n' !in ssid && '\n' !in pass
    ensures var request := header + BLANK_LINE + Print(user, ssid, pass);
      (Value(request, USER, 255) == user && Value(request, SSID, 31) == ssid && Value(request, PASS, 63) == pass)
      <==> (Fits(user, 255) && Fits(ssid, 31) && Fits(pass, 63))
  {
    var request := header + BLANK_LINE + Print(user, ssid, pass);
    PrintedLines(header, user, ssid, pass);
    FieldKept(request, USER, user, 255);
    FieldKept(request, SSID, ssid, 31);
    FieldKept(request, PASS, pass, 63);
  }

  // The same through the server: a whole request of at most 1023 bytes is accepted with
  // exactly the credentials the user typed.
  lemma PairingRoundTrip(header: string, user: string, ssid: string, pass: string)
    requires Plain(header) && Search(header, "POST /configure").Some?
    requires NUL !in header && NUL !in user && NUL !in ssid && NUL !in pass
    requires '\n' !in user && '\n' !in ssid && '\n' !in pass
    requires user != "" && ssid != "" && pass != ""
    requires |header + BLANK_LINE + Print(user, ssid, pass)| <= 1023
    ensures Answer(header + BLANK_LINE + Print(user, ssid, pass)) == Configured(user, ssid, pass)
       <==> Fits(user, 255) && Fits(ssid, 31) && Fits(pass, 63)
  {
    var request := header + BLANK_LINE + Print(user, ssid, pass);
    var i := RouteIsFound(header, BLANK_LINE + Print(user, ssid, pass));
    assert header + (BLANK_LINE + Print(user, ssid, pass)) == request;
    PrintedIsPlain(header, user, ssid, pass);
    ConfiguredIff(request, i, user, ssid, pass);
    RoundTrip(header, user, ssid, pass);
  }

  lemma ConfiguredIff(request: string, i: nat, user: string, ssid: string, pass: string)
    requires NUL !in request && Occurs(request, "POST /configure", i) && user != "" && ssid != "" && pass != ""
    ensures Answer(request) == Configured(user, ssid, pass) <==>
      Value(request, USER, 255) == user && Value(request, SSID, 31) == ssid && Value(request, PASS, 63) == pass
  {
    AnswerOf(request, i);
  }

  lemma RouteIsFound(header: string, rest: string) returns (i: nat)
    requires Search(header, "POST /configure").Some?
    ensures Occurs(header + rest, "POST /configure", i)
  {
    i := Search(header, "POST /configure").value;
    assert (header + rest)[i..i + 15] == header[i..i + 15];
  }

  lemma PrintedIsPlain(header: string, user: string, ssid: string, pass: string)
    requires NUL !in header && NUL !in user && NUL !in ssid && NUL !in pass
    ensures NUL !in header + BLANK_LINE + Print(user, ssid, pass)
  {
    assert NUL !in Print(user, ssid, pass);
    assert NUL !in BLANK_LINE;
  }

  lemma AnswerOf(request: string, i: nat)
    requires NUL !in request && Occurs(request, "POST /configure", i)
    ensures var user, ssid, pass := Value(request, USER, 255), Value(request, SSID, 31), Value(request, PASS, 63);
      Answer(request) == if ssid != "" && pass != "" && user != "" then Configured(user, ssid, pass) else BadRequest
  {
    TextOf(request, [NUL]);
  }

  lemma ValueFits(text: string, field: nat, capacity: nat)
    requires NUL !in text
    ensures |Value(text, field, capacity)| <= capacity && NUL !in Value(text, field, capacity)
  {
    LineHasNoNul(text, field);
  }

  // Accepted credentials always fit the settings they are stored in.
  lemma AnswerFits(received: string)
    requires Answer(received).Configured?
    ensures var Configured(user, ssid, pass) := Answer(received);
      && |user| <= 255 && |ssid| <= 31 && |pass| <= 63
      && NUL !in user && NUL !in ssid && NUL !in pass
  {
    var text := Text(received + [NUL]);
    ValueFits(text, USER, 255);
    ValueFits(text, SSID, 31);
    ValueFits(text, PASS, 63);
  }
}
