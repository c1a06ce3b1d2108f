// The serial console: bytes are assembled into commands, and each command is dispatched.
module SerialLine {
  import opened Wrappers
  import opened CStrings

  // ---- Line assembly ----

  predicate IsEol(c: char) { c == '\n' || c == '\r' }

  predicate NoEol(s: string) { forall i :: 0 <= i < |s| ==> !IsEol(s[i]) }

  // The position of the first line end, or the length when there is none.
  function EolIndex(s: string): (i: nat)
    ensures i <= |s| && NoEol(s[..i]) && (i < |s| ==> IsEol(s[i]))
  {
    if s == "" || IsEol(s[0]) then 0
    else
      var i := 1 + EolIndex(s[1..]);
      assert s[..i] == [s[0]] + s[1..][..i - 1];
      i
  }

  lemma {:induction false} EolIndexIs(s: string, i: nat)
    requires i <= |s| && NoEol(s[..i]) && (i < |s| ==> IsEol(s[i]))
    ensures EolIndex(s) == i
  {
    if 0 < i {
      assert s[..i][0] == s[0] && s[..i][1..] == s[1..][..i - 1];
      EolIndexIs(s[1..], i - 1);
    }
  }

  // The stream split at every line end; what follows the last one is still pending.
  function Segments(stream: string): seq<string> {
    var i := EolIndex(stream);
    if i == |stream| then [] else [stream[..i]] + Segments(stream[i + 1..])
  }

  // What the dispatcher sees of a segment: 255 characters, up to a NUL.
  function Command(segment: string): string { Text(Take(segment, 255) + [NUL]) }

  function Dispatched(segments: seq<string>): seq<string> {
    seq(|segments|, i requires 0 <= i < |segments| => Command(segments[i]))
  }

  function Commands(stream: string): seq<string> { Dispatched(Segments(stream)) }

  lemma DispatchedAppend(segments: seq<string>, segment: string)
    ensures Dispatched(segments + [segment]) == Dispatched(segments) + [Command(segment)]
  {
  }

  lemma SegmentsStep(current: string, c: char, rest: string)
    requires NoEol(current)
    ensures IsEol(c) ==> Segments(current + [c] + rest) == [current] + Segments(rest)
  {
    var s := current + [c] + rest;
    if IsEol(c) {
      assert s[..|current|] == current;
      EolIndexIs(s, |current|);
      assert s[|current| + 1..] == rest;
    }
  }

  // A line ended by either character arrives as typed, cut to 255 characters; without an
  // end it does not arrive.
  lemma LineArrives(line: string, c: char, rest: string)
    requires '\n' !in line && '\r' !in line && '\0' !in line && (c == '\n' || c == '\r')
    ensures Commands(line) == []
    ensures Commands(line + [c] + rest) == [if |line| <= 255 then line else line[..255]] + Commands(rest)
  {
    EolIndexIs(line, |line|);
    SegmentsStep(line, c, rest);
    CommandIs(line);
    DispatchedMore(line, Segments(rest));
  }

  lemma CommandIs(line: string)
    requires '\0' !in line
    ensures Command(line) == if |line| <= 255 then line else line[..255]
  {
    assert '\0' !in Take(line, 255);
    TextOf(Take(line, 255), [NUL]);
  }

  lemma DispatchedMore(line: string, segments: seq<string>)
    ensures Dispatched([line] + segments) == [Command(line)] + Dispatched(segments)
  {
  }

  // `done` segments were dispatched, `current` is under way, `rest` is still to come.
  predicate Progress(stream: string, done: seq<string>, current: string, rest: string) {
    NoEol(current) && done + Segments(current + rest) == Segments(stream)
  }

  lemma ProgressChar(stream: string, done: seq<string>, current: string, c: char, rest: string)
    requires Progress(stream, done, current, [c] + rest) && !IsEol(c)
    ensures Progress(stream, done, current + [c], rest)
  {
    assert current + ([c] + rest) == current + [c] + rest;
  }

  lemma ProgressEol(stream: string, done: seq<string>, current: string, c: char, rest: string)
    requires Progress(stream, done, current, [c] + rest) && IsEol(c)
    ensures Progress(stream, done + [current], "", rest)
  {
    assert current + ([c] + rest) == current + [c] + rest;
    SegmentsStep(current, c, rest);
    Regroup(done, current, Segments(rest));
    assert "" + rest == rest;
  }

  lemma Regroup(done: seq<string>, current: string, later: seq<string>)
    ensures done + ([current] + later) == (done + [current]) + later
  {
  }

  lemma ProgressEnd(stream: string, done: seq<string>, current: string)
    requires Progress(stream, done, current, "")
    ensures done == Segments(stream)
  {
    assert current + "" == current;
    EolIndexIs(current, |current|);
  }

  ghost predicate ProgressAt(stream: string, done: seq<string>, current: string, i: nat) {
    i <= |stream| && Progress(stream, done, current, stream[i..])
  }

  lemma ProgressStep(stream: string, done: seq<string>, current: string, i: nat)
    requires i < |stream| && ProgressAt(stream, done, current, i)
    ensures if IsEol(stream[i]) then ProgressAt(stream, done + [current], "", i + 1)
            else ProgressAt(stream, done, current + [stream[i]], i + 1)
  {
    assert stream[i..] == [stream[i]] + stream[i + 1..];
    if IsEol(stream[i]) {
      ProgressEol(stream, done, current, stream[i], stream[i + 1..]);
    } else {
      ProgressChar(stream, done, current, stream[i], stream[i + 1..]);
    }
  }

  // The buffer holds what has come of the current segment, up to 255 characters.
  ghost predicate Buffered(buffer: seq<char>, index: nat, current: string) {
    |buffer| == 256 && index == |Take(current, 255)| && buffer[..index] == Take(current, 255)
  }

  // serial_command_task over any byte stream: exactly the segments are dispatched, each
  // cut to 255 characters, and the buffer index stays in bounds.
  method Assemble(stream: string) returns (commands: seq<string>)
    ensures commands == Commands(stream)
  {
    var buffer := new char[256](_ => NUL);
    var index := 0;
    commands := [];
    ghost var current := "";
    ghost var done: seq<string> := [];
    assert "" + stream == stream;
    for i := 0 to |stream|
      invariant Buffered(buffer[..], index, current)
      invariant ProgressAt(stream, done, current, i)
      invariant commands == Dispatched(done)
    {
      var data := stream[i];
      ProgressStep(stream, done, current, i);
      if IsEol(data) {
        var command := EndLine(buffer, index, current);
        index := 0;
        commands := commands + [command];
        DispatchedAppend(done, current);
        done := done + [current];
        current := "";
      } else {
        index := Store(buffer, index, data, current);
        current := current + [data];
      }
    }
    ProgressEnd(stream, done, current);
  }

  // Stores one character unless the buffer is full.
  method Store(buffer: array<char>, index: nat, data: char, ghost current: string) returns (next: nat)
    requires Buffered(buffer[..], index, current)
    modifies buffer
    ensures Buffered(buffer[..], next, current + [data])
  {
    next := index;
    if index < 255 {
      buffer[index] := data;
      next := index + 1;
    }
  }

  // Terminates the buffer and reads the finished command back.
  method EndLine(buffer: array<char>, index: nat, ghost current: string) returns (command: string)
    requires Buffered(buffer[..], index, current)
    modifies buffer
    ensures command == Command(current)
  {
    buffer[index] := NUL;
    assert buffer[..index + 1] == Take(current, 255) + [NUL];
    command := Seen(buffer, index);
  }

  // The string that starts at the buffer, read up to its first NUL.
  method Seen(buffer: array<char>, last: nat) returns (text: string)
    requires last < buffer.Length && buffer[last] == NUL
    ensures text == Text(buffer[..last + 1])
  {
    var n := 0;
    assert buffer[..last + 1][last] == NUL;
    while buffer[n] != NUL
      invariant n <= last && NUL !in buffer[..n]
      decreases last - n
    {
      n := n + 1;
    }
    assert buffer[..last + 1][..n] == buffer[..n];
    IndexOfIs(buffer[..last + 1], NUL, n);
    text := buffer[..n];
  }

  // ---- Dispatch ----

  datatype Action =
    | UpdateConfig(key: string, value: string)
    | BadFormat
    | Unlock | Lock | Record | Stop | Reboot | Lockdown | Flash | Pair
    | Unknown

  // The length of the leading run of characters that are not white space, up to a bound.
  function WordLength(s: string, bound: nat): (n: nat)
    ensures n <= |s| && n <= bound && forall i :: 0 <= i < n ==> !IsSpace(s[i])
    ensures n < |s| && n < bound ==> IsSpace(s[n])
  {
    if s == "" || bound == 0 || IsSpace(s[0]) then 0 else 1 + WordLength(s[1..], bound - 1)
  }

  lemma {:induction false} WordLengthIs(s: string, bound: nat, n: nat)
    requires n <= |s| && n <= bound && (forall i :: 0 <= i < n ==> !IsSpace(s[i])) && n < |s| && IsSpace(s[n])
    ensures WordLength(s, bound) == n
  {
    if 0 < n { WordLengthIs(s[1..], bound - 1, n - 1); }
  }

  // sscanf(s, "%31s %255[^\n]", key, value), when both fields are found
  function Scan(s: string): Option<(string, string)> {
    var s := SkipSpace(s);
    var n := WordLength(s, 31);
    var rest := SkipSpace(s[n..]);
    var value := Take(Before(rest, '\n'), 255);
    if n == 0 || value == "" then None else Some((s[..n], value))
  }

  // The comparisons of strcasecmp, in their order.
  function WordAction(word: string): Action {
    if word == "unlock" then Unlock
    else if word == "lock" then Lock
    else if word == "record" then Record
    else if word == "stop" then Stop
    else if word == "reboot" then Reboot
    else if word == "lockdown" then Lockdown
    else if word == "flash" then Flash
    else if word == "pair" then Pair
    else Unknown
  }

  function Decode(command: string): Action {
    if "update_config " <= command then
      match Scan(command[14..])
      case Some((key, value)) => UpdateConfig(key, value)
      case None => BadFormat
    else WordAction(Lower(command))
  }

  lemma WordActions(word: string)
    ensures WordAction(word) == Unlock <==> word == "unlock"
    ensures WordAction(word) == Lock <==> word == "lock"
    ensures WordAction(word) == Record <==> word == "record"
    ensures WordAction(word) == Stop <==> word == "stop"
    ensures WordAction(word) == Reboot <==> word == "reboot"
    ensures WordAction(word) == Lockdown <==> word == "lockdown"
    ensures WordAction(word) == Flash <==> word == "flash"
    ensures WordAction(word) == Pair <==> word == "pair"
    ensures !WordAction(word).UpdateConfig? && !WordAction(word).BadFormat?
  {
  }

  lemma AllWordActions()
    ensures forall word :: WordAction(word) == Unlock <==> word == "unlock"
    ensures forall word :: WordAction(word) == Lock <==> word == "lock"
    ensures forall word :: WordAction(word) == Lockdown <==> word == "lockdown"
    ensures forall word :: WordAction(word) == Reboot <==> word == "reboot"
    ensures forall word :: WordAction(word) == Record <==> word == "record"
    ensures forall word :: WordAction(word) == Stop <==> word == "stop"
    ensures forall word :: WordAction(word) == Flash <==> word == "flash"
    ensures forall word :: WordAction(word) == Pair <==> word == "pair"
  {
    forall word
      ensures WordAction(word) == Unlock <==> word == "unlock"
      ensures WordAction(word) == Lock <==> word == "lock"
      ensures WordAction(word) == Lockdown <==> word == "lockdown"
      ensures WordAction(word) == Reboot <==> word == "reboot"
      ensures WordAction(word) == Record <==> word == "record"
      ensures WordAction(word) == Stop <==> word == "stop"
      ensures WordAction(word) == Flash <==> word == "flash"
      ensures WordAction(word) == Pair <==> word == "pair"
    {
      WordActions(word);
    }
  }

  lemma WordIs(command: string, upper: string, lower: string, action: Action)
    requires IsWord(upper, lower) && |lower| < 14 && !action.UpdateConfig? && !action.BadFormat? && action != Unknown
    requires forall word :: WordAction(word) == action <==> word == lower
    ensures Spells(command, upper, lower) <==> Decode(command) == action
  {
    SameIffSpells(command, upper, lower);
  }

  lemma DoorWords(command: string)
    ensures Spells(command, "UNLOCK", "unlock") <==> Decode(command) == Unlock
    ensures Spells(command, "LOCK", "lock") <==> Decode(command) == Lock
    ensures Spells(command, "LOCKDOWN", "lockdown") <==> Decode(command) == Lockdown
    ensures Spells(command, "REBOOT", "reboot") <==> Decode(command) == Reboot
  {
    AllWordActions();
    WordIs(command, "UNLOCK", "unlock", Unlock);
    WordIs(command, "LOCK", "lock", Lock);
    WordIs(command, "LOCKDOWN", "lockdown", Lockdown);
    WordIs(command, "REBOOT", "reboot", Reboot);
  }

  lemma OtherWords(command: string)
    ensures Spells(command, "RECORD", "record") <==> Decode(command) == Record
    ensures Spells(command, "STOP", "stop") <==> Decode(command) == Stop
    ensures Spells(command, "FLASH", "flash") <==> Decode(command) == Flash
    ensures Spells(command, "PAIR", "pair") <==> Decode(command) == Pair
  {
    AllWordActions();
    WordIs(command, "RECORD", "record", Record);
    WordIs(command, "STOP", "stop", Stop);
    WordIs(command, "FLASH", "flash", Flash);
    WordIs(command, "PAIR", "pair", Pair);
  }

  // Every word, in whatever case, decodes to its own action, and nothing else does.
  lemma ConsoleWords(command: string)
    ensures Spells(command, "UNLOCK", "unlock") <==> Decode(command) == Unlock
    ensures Spells(command, "LOCK", "lock") <==> Decode(command) == Lock
    ensures Spells(command, "LOCKDOWN", "lockdown") <==> Decode(command) == Lockdown
    ensures Spells(command, "REBOOT", "reboot") <==> Decode(command) == Reboot
    ensures Spells(command, "RECORD", "record") <==> Decode(command) == Record
    ensures Spells(command, "STOP", "stop") <==> Decode(command) == Stop
    ensures Spells(command, "FLASH", "flash") <==> Decode(command) == Flash
    ensures Spells(command, "PAIR", "pair") <==> Decode(command) == Pair
    ensures "update_config " <= command <==> Decode(command).UpdateConfig? || Decode(command).BadFormat?
  {
    DoorWords(command);
    OtherWords(command);
    WordActions(Lower(command));
  }

  lemma WordLengthCut(s: string, bound: nat)
    requires bound <= |s| && forall i :: 0 <= i < bound ==> !IsSpace(s[i])
    ensures WordLength(s, bound) == bound
    decreases bound
  {
    if 0 < bound { WordLengthCut(s[1..], bound - 1); }
  }

  // What sscanf takes: a key of at most 31 characters, and from the next character that is
  // not white space at most 255 up to the end of the line. A longer word is cut in two.
  lemma ScanIs(space: string, key: string, gap: string, value: string, rest: string)
    requires (forall i :: 0 <= i < |space| ==> space[i] == ' ' || 9 <= space[i] as int <= 13)
    requires (forall i :: 0 <= i < |gap| ==> gap[i] == ' ' || 9 <= gap[i] as int <= 13)
    requires 0 < |key| <= 31 && (forall i :: 0 <= i < |key| ==> !IsSpace(key[i])) && (gap == "" ==> |key| == 31)
    requires value != "" && !IsSpace(value[0]) && '\n' !in value && (rest == "" || rest[0] == '\n')
    ensures Scan(space + (key + (gap + (value + rest)))) == Some((key, if |value| <= 255 then value else value[..255]))
  {
    var tail := gap + (value + rest);
    SkipsSpace(space, key + tail);
    KeyIs(key, tail);
    SkipsSpace(gap, value + rest);
    ValueIs(value, rest);
  }

  lemma KeyIs(key: string, tail: string)
    requires 0 < |key| <= 31 && (forall i :: 0 <= i < |key| ==> !IsSpace(key[i]))
    requires |key| == 31 || (tail != "" && IsSpace(tail[0]))
    ensures WordLength(key + tail, 31) == |key| && (key + tail)[..|key|] == key && (key + tail)[|key|..] == tail
  {
    if |key| == 31 {
      WordLengthCut(key + tail, 31);
    } else {
      WordLengthIs(key + tail, 31, |key|);
    }
  }

  lemma ValueIs(value: string, rest: string)
    requires '\n' !in value && (rest == "" || rest[0] == '\n')
    ensures Before(value + rest, '\n') == value
  {
    assert (value + rest)[..|value|] == value;
    IndexOfIs(value + rest, '\n', |value|);
  }

  function Print(key: string, value: string): string {
    "update_config " + key + " " + value
  }

  predicate PlainKey(key: string) {
    0 < |key| <= 31 && NUL !in key && forall i :: 0 <= i < |key| ==> !IsSpace(key[i])
  }

  lemma ScanPrinted(key: string, value: string)
    requires PlainKey(key) && NoEol(value) && value != "" && !IsSpace(value[0]) && |value| <= 255
    ensures Scan(key + " " + value) == Some((key, value))
  {
    var s := key + " " + value;
    assert SkipSpace(s) == s;
    WordLengthIs(s, 31, |key|);
    assert s[..|key|] == key && s[|key|..] == " " + value;
    assert (" " + value)[1..] == value;
    assert SkipSpace(" " + value) == value;
    IndexOfIs(value, '\n', |value|);
    assert Before(value, '\n') == value;
  }

  // An update typed on the console arrives as typed if and only if the value is there,
  // does not start with white space, and the whole line fits the buffer.
  lemma TypedUpdate(key: string, value: string)
    requires PlainKey(key) && NoEol(value) && NUL !in value
    ensures var line := Print(key, value);
      && Segments(line + "\n") == [line]
      && (Decode(Command(line)) == UpdateConfig(key, value)
          <==> value != "" && !IsSpace(value[0]) && |line| <= 255)
  {
    var line := Print(key, value);
    assert NoEol(line) && NUL !in line;
    SegmentsStep(line, '\n', "");
    assert line + "\n" + "" == line + "\n";
    assert Segments("") == [];
    var command := Take(line, 255);
    assert NUL !in command;
    TextOf(command, [NUL]);
    assert "update_config " == command[..14];
    if value != "" && !IsSpace(value[0]) && |line| <= 255 {
      assert command[14..] == key + " " + value;
      ScanPrinted(key, value);
    } else if Decode(command) == UpdateConfig(key, value) {
      CutValue(key, value);
    }
  }

  // A line of more than 255 characters loses the end of its value.
  lemma CutValue(key: string, value: string)
    requires PlainKey(key) && NoEol(value) && |Print(key, value)| > 255
    ensures Decode(Take(Print(key, value), 255)) != UpdateConfig(key, value)
  {
    var command := Take(Print(key, value), 255);
    var cut := value[..|value| - (|Print(key, value)| - 255)];
    assert command[14..] == key + " " + cut;
    ScanTail(key, cut);
  }

  lemma ScanTail(key: string, rest: string)
    requires PlainKey(key)
    ensures Scan(key + " " + rest).Some? ==> |Scan(key + " " + rest).value.1| <= |rest|
  {
    var s := key + " " + rest;
    assert SkipSpace(s) == s;
    WordLengthIs(s, 31, |key|);
    assert s[|key|..] == " " + rest;
    assert (" " + rest)[1..] == rest;
  }
}
