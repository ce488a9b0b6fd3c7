/** Printing a kube.env file, and reading it back. */
module KubeEnv {
  import opened Options
  import opened SortedKeys

  // ---- The printer ----------------------------------------------------------------------

  predicate Marked(c: char) {
    c == '"' || c == '\'' || c == '`' || c == '\\' || c == '$'
  }

  /** First each marked character gets a backslash, then each newline becomes a backslash and an n. */
  function Backslashed(value: string): string {
    if value == "" then ""
    else (if Marked(value[0]) then ['\\', value[0]] else [value[0]]) + Backslashed(value[1..])
  }

  function NewlineSpelled(c: char): string {
    if c == '\n' then "\\n" else [c]
  }

  function NewlinesSpelled(text: string): string {
    if text == "" then "" else NewlineSpelled(text[0]) + NewlinesSpelled(text[1..])
  }

  function Escape(value: string): string {
    NewlinesSpelled(Backslashed(value))
  }

  /** Unicode white space. */
  predicate IsSpace(c: char) {
    || '\t' <= c <= '\r' || c == ' ' || c == '\U{85}' || c == '\U{A0}' || c == '\U{1680}'
    || '\U{2000}' <= c <= '\U{200A}' || c == '\U{2028}' || c == '\U{2029}' || c == '\U{202F}' || c == '\U{205F}'
    || c == '\U{3000}'
  }

  function TrimSpace(s: string): string {
    if s == "" then ""
    else if IsSpace(s[0]) then TrimSpace(s[1..])
    else if IsSpace(s[|s| - 1]) then TrimSpace(s[..|s| - 1])
    else s
  }

  /** Trimming takes white space off both ends, and all of it. */
  lemma {:induction false} TrimSpaceExactly(s: string) returns (from: nat, to: nat)
    ensures from <= to <= |s| && TrimSpace(s) == s[from..to]
    ensures forall k :: 0 <= k < from || to <= k < |s| ==> IsSpace(s[k])
    ensures from < to ==> !IsSpace(s[from]) && !IsSpace(s[to - 1])
    decreases |s|
  {
    hide IsSpace;
    from, to := 0, |s|;
    if s != "" {
      if IsSpace(s[0]) {
        var rest := s[1..];
        var i, j := TrimSpaceExactly(rest);
        from, to := i + 1, j + 1;
        assert s[from..to] == rest[i..j];
        assert forall k :: 0 < k < |s| ==> s[k] == rest[k - 1];
      } else if IsSpace(s[|s| - 1]) {
        from, to := TrimSpaceExactly(s[..|s| - 1]);
        assert s[from..to] == s[..|s| - 1][from..to];
      }
    }
  }

  function Line(key: string, value: string): string {
    "export " + (TrimSpace(key) + ("=\"" + (Escape(value) + "\"\n")))
  }

  function File(keys: seq<string>, entries: map<string, string>): string
    requires forall k :: k in keys ==> k in entries
  {
    if keys == [] then "" else Line(keys[0], entries[keys[0]]) + File(keys[1..], entries)
  }

  /** A destination with room for so many more characters; a write that does not fit is cut short. */
  class Writer {
    var written: string
    var room: nat

    method Write(text: string) returns (ok: bool)
      modifies this
      ensures ok == (|text| <= old(room))
      ensures written == old(written) + (if ok then text else text[..old(room)])
      ensures room == (if ok then old(room) - |text| else 0)
    {
      if |text| <= room {
        written, room, ok := written + text, room - |text|, true;
      } else {
        written, room, ok := written + text[..room], 0, false;
      }
    }
  }

  /**
   Writes the file of the map, the same for every order in which the map yields its keys, and as much of it as
   the destination takes.
   */
  method ToKubeEnv(entries: map<string, string>, w: Writer) returns (ok: bool, ghost keys: seq<string>)
    modifies w
    ensures Ascending(keys) && forall k :: k in keys <==> k in entries
    ensures ok == (|File(keys, entries)| <= old(w.room))
    ensures w.written == old(w.written) + (if ok then File(keys, entries) else File(keys, entries)[..old(w.room)])
  {
    hide Line, Ascending;
    var order := Keys(entries);
    keys := order;
    var i := 0;
    while i < |order|
      invariant 0 <= i <= |order|
      invariant w.written + File(order[i..], entries) == old(w.written) + File(order, entries)
      invariant |old(w.written)| <= |w.written|
      invariant w.room - |File(order[i..], entries)| == old(w.room) - |File(order, entries)|
    {
      ghost var line, rest := Line(order[i], entries[order[i]]), File(order[i + 1..], entries);
      ghost var before, room := w.written, w.room;
      assert order[i..][1..] == order[i + 1..];
      ok := w.Write(Line(order[i], entries[order[i]]));
      if !ok {
        CutShort(old(w.written), File(order, entries), before, line, rest, room);
        return;
      }
      assert before + (line + rest) == (before + line) + rest;
      i := i + 1;
    }
    ok := true;
  }

  lemma CutShort(start: string, whole: string, before: string, line: string, rest: string, room: nat)
    requires before + (line + rest) == start + whole && room < |line|
    requires |start| <= |before|
    ensures before + line[..room] == start + whole[..|before| + room - |start|]
  {
    var n := |before| + room;
    assert before + line[..room] == (before + (line + rest))[..n];
    assert start + whole[..n - |start|] == (start + whole)[..n];
  }

  // ---- Readers --------------------------------------------------------------------------

  /**
   How a backslash inside double quotes is read: as in section 2.2.3 (Double-Quotes) of the POSIX.1-2017 Shell
   Command Language, or by undoing exactly what the printer does.
   */
  datatype Reader = Shell | Inverse

  function Unescaped(reader: Reader, c: char): string {
    match reader
    case Shell =>
      if c == '$' || c == '`' || c == '"' || c == '\\' then [c] else if c == '\n' then "" else ['\\', c]
    case Inverse =>
      if c == 'n' then "\n" else [c]
  }

  /** What follows an opening double quote: closed, with what is left; in need of an expansion; or never closed. */
  datatype Word = Closed(text: string, rest: string) | Expands | Unclosed

  function Prepend(text: string, word: Word): Word {
    if word.Closed? then Closed(text + word.text, word.rest) else word
  }

  function ReadWord(reader: Reader, s: string): Word {
    if s == "" then Unclosed
    else if s[0] == '"' then Closed("", s[1..])
    else if s[0] == '$' || s[0] == '`' then Expands
    else if s[0] == '\\' then
      if |s| == 1 then Unclosed else Prepend(Unescaped(reader, s[1]), ReadWord(reader, s[2..]))
    else Prepend([s[0]], ReadWord(reader, s[1..]))
  }

  /** What a value becomes: to a shell, its single quotes and newlines stay spelled out. */
  function Meaning(reader: Reader, value: string): string {
    if value == "" || reader == Inverse then value
    else (if value[0] == '\'' then "\\'" else if value[0] == '\n' then "\\n" else [value[0]])
         + Meaning(reader, value[1..])
  }

  predicate Plain(value: string) {
    '\'' !in value && '\n' !in value
  }

  /** A name as the POSIX.1-2017 Base Definitions have it: letters, digits and underscores, no digit first. */
  predicate NameChar(c: char) {
    'a' <= c <= 'z' || 'A' <= c <= 'Z' || c == '_' || '0' <= c <= '9'
  }

  predicate ShellName(s: string) {
    s != "" && !('0' <= s[0] <= '9') && forall c :: c in s ==> NameChar(c)
  }

  /** The longest run of name characters at the front. */
  function NameLength(s: string): (n: nat)
    ensures n <= |s| && (forall c :: c in s[..n] ==> NameChar(c)) && (n < |s| ==> !NameChar(s[n]))
  {
    if s == "" || !NameChar(s[0]) then 0
    else
      var n := NameLength(s[1..]);
      assert s[..n + 1] == [s[0]] + s[1..][..n];
      n + 1
  }

  const EXPORT := "export "

  datatype Assignment = Assignment(name: string, text: string, rest: string)

  /** One line: the keyword, a name, and a quoted word. */
  function ReadLine(reader: Reader, s: string): (r: Option<Assignment>)
    ensures r.Some? ==> |r.value.rest| < |s| && ShellName(r.value.name)
  {
    if !(EXPORT <= s) then None
    else
      var body := s[|EXPORT|..];
      var n := NameLength(body);
      if !ShellName(body[..n]) || !("=\"" <= body[n..]) then None
      else
        ReadWordShrinks(reader, body[n + 2..]);
        var word := ReadWord(reader, body[n + 2..]);
        if !word.Closed? || word.rest == "" || word.rest[0] != '\n' then None
        else Some(Assignment(body[..n], word.text, word.rest[1..]))
  }

  lemma ReadWordShrinks(reader: Reader, s: string)
    ensures ReadWord(reader, s).Closed? ==> |ReadWord(reader, s).rest| < |s|
  {
  }

  /** All lines; a later one wins over an earlier one. */
  function ReadFile(reader: Reader, s: string): Option<map<string, string>>
    decreases |s|
  {
    if s == "" then Some(map[])
    else
      var line := ReadLine(reader, s);
      if line.None? then None
      else
        var others := ReadFile(reader, line.value.rest);
        if others.None? then None
        else Some(map[line.value.name := line.value.text] + others.value)
  }

  // ---- Values ---------------------------------------------------------------------------

  /** One character of a value as the printer leaves it. */
  function Spelled(c: char): string {
    if Marked(c) then ['\\', c] else if c == '\n' then "\\n" else [c]
  }

  lemma NewlinesSpelledFirst(c: char, text: string)
    ensures NewlinesSpelled([c] + text) == NewlineSpelled(c) + NewlinesSpelled(text)
  {
  }

  /** The two passes of the printer amount to one. */
  lemma EscapeFirst(value: string)
    requires value != ""
    ensures Escape(value) == Spelled(value[0]) + Escape(value[1..])
  {
    hide NewlinesSpelled;
    var c, more := value[0], Backslashed(value[1..]);
    NewlinesSpelledFirst(c, more);
    if Marked(c) {
      assert ['\\', c] + more == ['\\'] + ([c] + more);
      NewlinesSpelledFirst('\\', [c] + more);
    }
  }

  /** One character of a value as the reader gets it. */
  function Shown(reader: Reader, c: char): string {
    if reader == Inverse then [c] else if c == '\'' then "\\'" else if c == '\n' then "\\n" else [c]
  }

  lemma MeaningFirst(reader: Reader, value: string)
    requires value != ""
    ensures Meaning(reader, value) == Shown(reader, value[0]) + Meaning(reader, value[1..])
  {
  }

  lemma NothingReadsBack(reader: Reader, tail: string)
    ensures ReadWord(reader, Escape("") + ("\"" + tail)) == Closed(Meaning(reader, ""), tail)
  {
  }

  /** Every value, printed and closed, is read to its last quote and no further, with nothing left to expand. */
  lemma {:induction false} WordReadsBack(reader: Reader, value: string, tail: string)
    ensures ReadWord(reader, Escape(value) + ("\"" + tail)) == Closed(Meaning(reader, value), tail)
  {
    hide Escape, ReadWord, Meaning, Shown, Spelled;
    if value == "" {
      NothingReadsBack(reader, tail);
    } else {
      var more := Escape(value[1..]) + ("\"" + tail);
      WordReadsBack(reader, value[1..], tail);
      EscapeFirst(value);
      assert Escape(value) + ("\"" + tail) == Spelled(value[0]) + more;
      OneReadsBack(reader, value[0], more);
      MeaningFirst(reader, value);
    }
  }

  lemma OneReadsBack(reader: Reader, c: char, more: string)
    ensures ReadWord(reader, Spelled(c) + more) == Prepend(Shown(reader, c), ReadWord(reader, more))
  {
    var s := Spelled(c) + more;
    if |Spelled(c)| == 2 {
      assert s[0] == '\\' && s[1] == Spelled(c)[1] && s[2..] == more;
    } else {
      assert s[0] == c && s[1..] == more;
    }
  }

  /** A shell gets the value exactly if it holds no single quote and no newline. */
  lemma {:induction false} ShellKeepsExactlyPlain(value: string)
    ensures |value| <= |Meaning(Shell, value)|
    ensures Meaning(Shell, value) == value <==> Plain(value)
  {
    if value != "" {
      ShellKeepsExactlyPlain(value[1..]);
      assert value == [value[0]] + value[1..];
    }
  }

  /** To a shell, a newline and a backslash before an n are one value. */
  lemma ShellConfusesNewlines()
    ensures Meaning(Shell, "\n") == Meaning(Shell, "\\n") && "\n" != "\\n"
  {
    assert "\n"[1..] == "" && "\\n"[1..] == "n" && "n"[1..] == "";
  }

  // ---- Files ----------------------------------------------------------------------------

  lemma NameNotTrimmed(key: string)
    requires ShellName(key)
    ensures TrimSpace(key) == key
  {
    assert key[0] in key && key[|key| - 1] in key;
  }

  lemma {:induction false} NameLengthIs(name: string, rest: string)
    requires forall c :: c in name ==> NameChar(c)
    requires rest != "" && !NameChar(rest[0])
    ensures NameLength(name + rest) == |name|
  {
    if name == "" {
      assert name + rest == rest;
    } else {
      assert (name + rest)[1..] == name[1..] + rest;
      NameLengthIs(name[1..], rest);
    }
  }

  /** A line is read back as the key without the white space around it, and what the value means. */
  lemma LineReadsBack(reader: Reader, key: string, value: string, tail: string)
    requires ShellName(TrimSpace(key))
    ensures ReadLine(reader, Line(key, value) + tail)
            == Some(Assignment(TrimSpace(key), Meaning(reader, value), tail))
  {
    hide Escape, ReadWord, Meaning, TrimSpace;
    var s, name := Line(key, value) + tail, TrimSpace(key);
    var quoted := "=\"" + (Escape(value) + ("\"" + ("\n" + tail)));
    LineSplits(key, value, tail);
    assert s[|EXPORT|..] == name + quoted;
    NameLengthIs(name, quoted);
    assert (name + quoted)[..|name|] == name && (name + quoted)[|name|..] == quoted;
    assert (name + quoted)[|name| + 2..] == quoted[2..] == Escape(value) + ("\"" + ("\n" + tail));
    WordReadsBack(reader, value, "\n" + tail);
    assert ("\n" + tail)[1..] == tail;
  }

  lemma LineSplits(key: string, value: string, tail: string)
    ensures Line(key, value) + tail
            == EXPORT + (TrimSpace(key) + ("=\"" + (Escape(value) + ("\"" + ("\n" + tail)))))
  {
    hide Escape, TrimSpace;
  }

  ghost predicate AllNames(entries: map<string, string>) {
    forall k :: k in entries ==> ShellName(k)
  }

  ghost function Restrict(entries: map<string, string>, keys: seq<string>): map<string, string> {
    map k | k in entries && k in keys :: entries[k]
  }

  ghost function Meanings(reader: Reader, entries: map<string, string>): map<string, string> {
    map k | k in entries :: Meaning(reader, entries[k])
  }

  lemma {:induction false} FileReadsBack(reader: Reader, keys: seq<string>, entries: map<string, string>)
    requires forall k :: k in keys ==> k in entries && ShellName(k)
    ensures ReadFile(reader, File(keys, entries)) == Some(Meanings(reader, Restrict(entries, keys)))
  {
    hide ReadLine, Line, Meaning, ShellName;
    if keys == [] {
      assert Meanings(reader, Restrict(entries, keys)) == map[];
    } else {
      hide Meanings, Restrict;
      var key := keys[0];
      FileReadsBack(reader, keys[1..], entries);
      NameNotTrimmed(key);
      LineReadsBack(reader, key, entries[key], File(keys[1..], entries));
      MeaningsFirst(reader, keys, entries);
    }
  }

  lemma MeaningsFirst(reader: Reader, keys: seq<string>, entries: map<string, string>)
    requires keys != [] && keys[0] in entries
    ensures Meanings(reader, Restrict(entries, keys))
            == map[keys[0] := Meaning(reader, entries[keys[0]])] + Meanings(reader, Restrict(entries, keys[1..]))
  {
    hide Meaning;
    assert keys == [keys[0]] + keys[1..];
  }

  lemma {:induction false} OnlyNamesAreRead(reader: Reader, s: string)
    ensures ReadFile(reader, s).Some? ==> AllNames(ReadFile(reader, s).value)
    decreases |s|
  {
    if s != "" && ReadLine(reader, s).Some? {
      OnlyNamesAreRead(reader, ReadLine(reader, s).value.rest);
    }
  }

  /**
   Undoing the printer gives the map back exactly if its keys are shell names; a shell gets it exactly if moreover
   its values are plain.
   */
  lemma MapComesBackExactly(keys: seq<string>, entries: map<string, string>)
    requires forall k :: k in keys <==> k in entries
    ensures ReadFile(Inverse, File(keys, entries)) == Some(entries) <==> AllNames(entries)
    ensures ReadFile(Shell, File(keys, entries)) == Some(entries)
            <==> AllNames(entries) && forall k :: k in entries ==> Plain(entries[k])
  {
    hide File, ReadFile, ShellName;
    OnlyNamesAreRead(Inverse, File(keys, entries));
    OnlyNamesAreRead(Shell, File(keys, entries));
    if AllNames(entries) {
      assert Restrict(entries, keys) == entries;
      FileReadsBack(Inverse, keys, entries);
      FileReadsBack(Shell, keys, entries);
      assert Meanings(Inverse, entries) == entries;
      forall k | k in entries ensures Meaning(Shell, entries[k]) == entries[k] <==> Plain(entries[k]) {
        ShellKeepsExactlyPlain(entries[k]);
      }
      assert Meanings(Shell, entries) == entries <==> forall k :: k in entries ==> Plain(entries[k]) by {
        assert forall k :: k in entries ==> Meanings(Shell, entries)[k] == Meaning(Shell, entries[k]);
      }
    }
  }

  // ---- Files cut short ------------------------------------------------------------------

  lemma {:induction false} WordExtends(reader: Reader, s: string, more: string)
    requires ReadWord(reader, s).Closed?
    ensures ReadWord(reader, s + more)
            == Closed(ReadWord(reader, s).text, ReadWord(reader, s).rest + more)
  {
    if s[0] == '"' {
      assert (s + more)[1..] == s[1..] + more;
    } else if s[0] == '\\' {
      assert (s + more)[2..] == s[2..] + more;
      WordExtends(reader, s[2..], more);
    } else {
      assert (s + more)[1..] == s[1..] + more;
      WordExtends(reader, s[1..], more);
    }
  }

  /** A line once read is read the same whatever follows. */
  lemma LineExtends(reader: Reader, s: string, more: string)
    requires ReadLine(reader, s).Some?
    ensures var r := ReadLine(reader, s).value;
            ReadLine(reader, s + more) == Some(Assignment(r.name, r.text, r.rest + more))
  {
    hide ReadWord, NameLength, Unescaped;
    var body := s[|EXPORT|..];
    var n := NameLength(body);
    assert (s + more)[|EXPORT|..] == body + more;
    assert body + more == body[..n] + (body[n..] + more);
    NameLengthIs(body[..n], body[n..] + more);
    assert (body + more)[..n] == body[..n] && (body + more)[n..] == body[n..] + more;
    assert (body + more)[n + 2..] == body[n + 2..] + more;
    WordExtends(reader, body[n + 2..], more);
    var rest := ReadWord(reader, body[n + 2..]).rest;
    assert (rest + more)[1..] == rest[1..] + more;
  }

  lemma CutLineFails(reader: Reader, key: string, value: string, n: nat)
    requires ShellName(key) && n < |Line(key, value)|
    ensures ReadLine(reader, Line(key, value)[..n]).None?
  {
    hide ReadLine, Line, Meaning;
    var line := Line(key, value);
    NameNotTrimmed(key);
    if ReadLine(reader, line[..n]).Some? {
      LineExtends(reader, line[..n], line[n..]);
      assert line[..n] + line[n..] == line == line + "";
      LineReadsBack(reader, key, value, "");
    }
  }

  /** Of a file cut short anywhere, what still reads is right: the first few keys with their values. */
  lemma {:induction false} CutFileIsNeverWrong(reader: Reader, keys: seq<string>, entries: map<string, string>, n: nat)
    returns (j: nat)
    requires forall k :: k in keys ==> k in entries && ShellName(k)
    requires n <= |File(keys, entries)|
    ensures j <= |keys|
    ensures var r := ReadFile(reader, File(keys, entries)[..n]);
            r.Some? ==> r.value == Meanings(reader, Restrict(entries, keys[..j]))
  {
    hide ReadLine, Line, Meaning, ShellName;
    j := 0;
    if n == 0 {
      assert Meanings(reader, Restrict(entries, keys[..0])) == map[];
    } else {
      hide Meanings, Restrict;
      var line, others := Line(keys[0], entries[keys[0]]), File(keys[1..], entries);
      if n < |line| {
        assert File(keys, entries)[..n] == line[..n];
        CutLineFails(reader, keys[0], entries[keys[0]], n);
      } else {
        var i := CutFileIsNeverWrong(reader, keys[1..], entries, n - |line|);
        assert File(keys, entries)[..n] == line + others[..n - |line|];
        NameNotTrimmed(keys[0]);
        LineReadsBack(reader, keys[0], entries[keys[0]], others[..n - |line|]);
        j := i + 1;
        assert keys[..j][1..] == keys[1..][..i];
        MeaningsFirst(reader, keys[..j], entries);
      }
    }
  }
}
