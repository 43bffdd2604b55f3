/** The shell commands that install a K3s server or join an agent to one. */
module K3sCommands {
  import opened Basics
  import opened Strings
  import opened ShellQuoting

  /** A payload value, with the text that fmt.Sprint gives for it or for its items. */
  datatype Value =
    | Null
    | Text(text: string)
    | List(items: seq<string>, printed: string)
    | Other(printed: string)

  type Payload = map<string, Value>

  /** normalizeActionConfig, read at one key. */
  function Config(payload: Payload, key: string): string {
    if key !in payload then ""
    else match payload[key]
      case Null => ""
      case Text(text) => TrimSpace(text)
      case List(_, printed) => TrimSpace(printed)
      case Other(printed) => TrimSpace(printed)
  }

  /** compactStrings */
  function Compact(values: seq<string>): (compact: seq<string>)
    ensures |compact| <= |values|
    ensures forall k :: 0 <= k < |compact| ==> compact[k] != ""
  {
    if values == [] then []
    else
      var trimmed := TrimSpace(values[|values| - 1]);
      Compact(values[..|values| - 1]) + if trimmed != "" then [trimmed] else []
  }

  function Trimmed(values: seq<string>): seq<string> {
    if values == [] then [] else Trimmed(values[..|values| - 1]) + [TrimSpace(values[|values| - 1])]
  }

  /** Lists of any values are trimmed once before compacting trims them again; that makes no
      difference. */
  lemma {:induction false} TrimmingFirst(values: seq<string>)
    ensures Compact(Trimmed(values)) == Compact(values)
    decreases |values|
  {
    if values != [] {
      var before, last := values[..|values| - 1], values[|values| - 1];
      TrimmingFirst(before);
      TrimmingTwice(last);
      assert Trimmed(values)[..|Trimmed(values)| - 1] == Trimmed(before);
    }
  }

  method CompactStrings(values: seq<string>) returns (filtered: seq<string>)
    ensures filtered == Compact(values)
  {
    filtered := [];
    for k := 0 to |values|
      invariant filtered == Compact(values[..k])
    {
      assert values[..k + 1][..k] == values[..k];
      var trimmed := TrimSpace(values[k]);
      if trimmed != "" {
        filtered := filtered + [trimmed];
      }
    }
    assert values[..|values|] == values;
  }

  /** strings.FieldsFunc at commas and line ends; fields in between may be empty here, since
      compacting drops them. */
  function Fields(s: string): (fields: seq<string>)
    ensures fields != []
  {
    if s == "" then [""]
    else
      var rest := Fields(s[1..]);
      if s[0] == ',' || s[0] == '\n' || s[0] == '\r' then [""] + rest
      else [[s[0]] + rest[0]] + rest[1..]
  }

  /** stringSliceFromPayload: the first of the keys that holds a list or a text. */
  function StringList(payload: Payload, keys: seq<string>): seq<string> {
    if keys == [] then []
    else if keys[0] in payload && payload[keys[0]].List? then Compact(payload[keys[0]].items)
    else if keys[0] in payload && payload[keys[0]].Text? then Compact(Fields(payload[keys[0]].text))
    else StringList(payload, keys[1..])
  }

  /** strings.EqualFold(s, "true") */
  predicate IsTrue(s: string) {
    && |s| == 4 && s[0] in "tT" && s[1] in "rR" && s[2] in "uU" && s[3] in "eE"
  }

  // ---- What the payload's values are ----------------------------------------------------------

  /** A setting is the key's text, or what Go prints for its value, without the space at both
      ends; null and a missing key read as no text. */
  lemma ConfigIs(payload: Payload, key: string)
    ensures key !in payload || payload[key].Null? ==> Config(payload, key) == ""
    ensures key in payload && payload[key].Text? ==> Trims(payload[key].text, Config(payload, key))
    ensures key in payload && (payload[key].List? || payload[key].Other?) ==>
              Trims(payload[key].printed, Config(payload, key))
    ensures TrimSpace(Config(payload, key)) == Config(payload, key)
  {
    if key in payload && !payload[key].Null? {
      var text := if payload[key].Text? then payload[key].text else payload[key].printed;
      TrimSpaceTrims(text);
      TrimmingTwice(text);
    }
  }

  /** The server and the token that the commands name. */
  lemma ServerAndToken(payload: Payload)
    ensures ServerUrl(payload) == if Config(payload, "serverUrl") != "" then Config(payload, "serverUrl")
                                  else if Config(payload, "url") != "" then Config(payload, "url")
                                  else "<kernel-server-url>"
    ensures JoinToken(payload) == if Config(payload, "token") != "" then Config(payload, "token")
                                  else if Config(payload, "k3sToken") != "" then Config(payload, "k3sToken")
                                  else "<k3s-token>"
  {
    ConfigIs(payload, "serverUrl");
    ConfigIs(payload, "url");
    ConfigIs(payload, "token");
    ConfigIs(payload, "k3sToken");
    LastResort("<kernel-server-url>");
    LastResort("<k3s-token>");
    FirstOfThree(Config(payload, "serverUrl"), Config(payload, "url"), "<kernel-server-url>");
    FirstOfThree(Config(payload, "token"), Config(payload, "k3sToken"), "<k3s-token>");
  }

  lemma LastResort(text: string)
    requires text != "" && !IsSpace(text[0]) && !IsSpace(text[|text| - 1])
    ensures TrimSpace(text) == text
  {
    TrimSpaceKeeps(text);
  }

  lemma FirstOfThree(a: string, b: string, c: string)
    requires TrimSpace(a) == a && TrimSpace(b) == b && TrimSpace(c) == c && c != ""
    ensures FirstNonEmpty([a, b, c]) == if a != "" then a else if b != "" then b else c
  {
    var rest := [b, c];
    assert [a, b, c][1..] == rest && rest[1..] == [c];
    assert FirstNonEmpty([c]) == c;
    assert FirstNonEmpty(rest) == if b != "" then b else c;
  }

  /** Compacting keeps of each value what trimming leaves, in order, and drops the values that
      are all space. */
  lemma {:induction false} CompactAppends(before: seq<string>, value: string)
    ensures AllSpace(value) ==> Compact(before + [value]) == Compact(before)
    ensures !AllSpace(value) ==>
              exists text :: Trims(value, text) && Compact(before + [value]) == Compact(before) + [text]
  {
    TrimSpaceTrims(value);
    assert (before + [value])[..|before|] == before;
  }

  predicate NoSeparator(s: string) {
    forall k :: 0 <= k < |s| ==> s[k] != ',' && s[k] != '\n' && s[k] != '\r'
  }

  lemma {:induction false} FieldsHoldNoSeparator(s: string)
    ensures forall k :: 0 <= k < |Fields(s)| ==> NoSeparator(Fields(s)[k])
    decreases |s|
  {
    if s != "" {
      FieldsHoldNoSeparator(s[1..]);
      assert NoSeparator(Fields(s[1..])[0]);
    }
  }

  /** The text with a comma for each separator. */
  predicate WithCommas(s: string, t: string) {
    && |t| == |s|
    && forall k :: 0 <= k < |s| ==> t[k] == if s[k] == '\n' || s[k] == '\r' then ',' else s[k]
  }

  /** The fields, none of which holds a separator, are the text cut at each of its separators:
      joined by commas they are the text again. */
  lemma {:induction false} FieldsAreTheText(s: string)
    ensures forall k :: 0 <= k < |Fields(s)| ==> NoSeparator(Fields(s)[k])
    ensures WithCommas(s, Join(Fields(s), ","))
    decreases |s|
  {
    FieldsHoldNoSeparator(s);
    if s != "" {
      FieldsAreTheText(s[1..]);
      FieldsGrow(s);
      OneMoreWithCommas(s, Join(Fields(s[1..]), ","), Join(Fields(s), ",")[0]);
    }
  }

  lemma OneMoreWithCommas(s: string, t: string, c: char)
    requires s != "" && WithCommas(s[1..], t) && c == if s[0] == '\n' || s[0] == '\r' then ',' else s[0]
    ensures WithCommas(s, [c] + t)
  {
    forall k | 0 < k < |s| ensures ([c] + t)[k] == if s[k] == '\n' || s[k] == '\r' then ',' else s[k] {
      assert s[1..][k - 1] == s[k] && ([c] + t)[k] == t[k - 1];
    }
  }

  lemma FieldsGrow(s: string)
    requires s != ""
    ensures Join(Fields(s), ",") ==
            [if s[0] == '\n' || s[0] == '\r' then ',' else s[0]] + Join(Fields(s[1..]), ",")
  {
    var rest := Fields(s[1..]);
    if s[0] == ',' || s[0] == '\n' || s[0] == '\r' {
      assert ([""] + rest)[1..] == rest;
      assert "" + "," + Join(rest, ",") == [','] + Join(rest, ",");
    } else {
      JoinGrows(s[0], rest);
    }
  }

  lemma JoinGrows(c: char, rest: seq<string>)
    requires rest != []
    ensures Join([[c] + rest[0]] + rest[1..], ",") == [c] + Join(rest, ",")
  {
    var more := [[c] + rest[0]] + rest[1..];
    assert more[1..] == rest[1..];
    assert [c] + rest[0] + "," + Join(rest[1..], ",") == [c] + (rest[0] + "," + Join(rest[1..], ","));
  }

  predicate Lists(payload: Payload, key: string) {
    key in payload && (payload[key].List? || payload[key].Text?)
  }

  /** The first key that holds a list or a text decides, even when nothing of it is left. */
  lemma {:induction false} StringListIs(payload: Payload, keys: seq<string>, k: nat)
    requires k <= |keys| && forall j :: 0 <= j < k ==> !Lists(payload, keys[j])
    ensures k == |keys| ==> StringList(payload, keys) == []
    ensures k < |keys| && keys[k] in payload && payload[keys[k]].List? ==>
              StringList(payload, keys) == Compact(payload[keys[k]].items)
    ensures k < |keys| && keys[k] in payload && payload[keys[k]].Text? ==>
              StringList(payload, keys) == Compact(Fields(payload[keys[k]].text))
    decreases k
  {
    if k > 0 {
      assert !Lists(payload, keys[0]);
      assert forall j :: 0 <= j < k - 1 ==> keys[1..][j] == keys[j + 1];
      StringListIs(payload, keys[1..], k - 1);
    }
  }

  // ---- The arguments a payload asks for -------------------------------------------------------

  function Setting(name: string, value: string): seq<string> {
    if value == "" then [] else [name, value]
  }

  function Repeated(name: string, values: seq<string>, n: nat): seq<string>
    requires n <= |values|
  {
    if n == 0 then [] else Repeated(name, values, n - 1) + [name, values[n - 1]]
  }

  function JoinArguments(payload: Payload): seq<string> {
    var labels, taints := StringList(payload, ["labels"]), StringList(payload, ["taints"]);
    Setting("--node-name", Config(payload, "nodeName")) +
    Setting("--node-ip", Config(payload, "nodeIP")) +
    Repeated("--node-label", labels, |labels|) +
    Repeated("--node-taint", taints, |taints|) +
    StringList(payload, ["extraArgs", "args"])
  }

  function ServerArguments(payload: Payload): seq<string> {
    var disables := StringList(payload, ["disable", "disables"]);
    Setting("--node-name", Config(payload, "nodeName")) +
    Setting("--data-dir", Config(payload, "dataDir")) +
    (if IsTrue(Config(payload, "clusterInit")) then ["--cluster-init"] else []) +
    Setting("--advertise-address", Config(payload, "advertiseAddress")) +
    Setting("--node-ip", Config(payload, "nodeIP")) +
    Repeated("--disable", disables, |disables|) +
    StringList(payload, ["extraArgs", "args"])
  }

  /** Each value of a repeated option follows its name. */
  ghost predicate Repeats(options: seq<string>, name: string, values: seq<string>) {
    |options| == 2 * |values| &&
    forall k {:trigger values[k]} :: 0 <= k < |values| ==> options[k + k] == name && options[k + k + 1] == values[k]
  }

  lemma {:induction false} RepeatedRepeats(name: string, values: seq<string>, n: nat)
    requires n <= |values|
    ensures Repeats(Repeated(name, values, n), name, values[..n])
    decreases n
  {
    if n > 0 {
      RepeatedRepeats(name, values, n - 1);
      var fewer, more := values[..n - 1], values[..n];
      var shorter, longer := Repeated(name, values, n - 1), Repeated(name, values, n);
      assert longer == shorter + [name, values[n - 1]] && |shorter| == 2 * (n - 1);
      forall k | 0 <= k < n ensures longer[k + k] == name && longer[k + k + 1] == more[k] {
        assert k < n - 1 ==> more[k] == fewer[k] && longer[k + k] == shorter[k + k];
        assert k < n - 1 ==> longer[k + k + 1] == shorter[k + k + 1];
      }
    }
  }

  lemma RepeatsOnce(a: seq<string>, b: seq<string>, name: string, values: seq<string>)
    requires Repeats(a, name, values) && Repeats(b, name, values)
    ensures a == b
  {
    forall i | 0 <= i < |a| ensures a[i] == b[i] {
      var k := i / 2;
      assert values[k] == values[k] && (i == k + k || i == k + k + 1);
    }
  }

  /** The agent's arguments in order. */
  lemma JoinArgumentsAre(payload: Payload, labels: seq<string>, taints: seq<string>)
    requires Repeats(labels, "--node-label", StringList(payload, ["labels"]))
    requires Repeats(taints, "--node-taint", StringList(payload, ["taints"]))
    ensures var name, ip := Config(payload, "nodeName"), Config(payload, "nodeIP");
            JoinArguments(payload) ==
            (if name == "" then [] else ["--node-name", name]) + (if ip == "" then [] else ["--node-ip", ip]) +
            labels + taints + StringList(payload, ["extraArgs", "args"])
  {
    AllRepeated("--node-label", StringList(payload, ["labels"]), labels);
    AllRepeated("--node-taint", StringList(payload, ["taints"]), taints);
  }

  lemma AllRepeated(name: string, values: seq<string>, options: seq<string>)
    requires Repeats(options, name, values)
    ensures Repeated(name, values, |values|) == options
  {
    RepeatedRepeats(name, values, |values|);
    assert values[..|values|] == values;
    RepeatsOnce(Repeated(name, values, |values|), options, name, values);
  }

  /** The server's arguments in order. */
  lemma ServerArgumentsAre(payload: Payload, disables: seq<string>)
    requires Repeats(disables, "--disable", StringList(payload, ["disable", "disables"]))
    ensures var name, dir := Config(payload, "nodeName"), Config(payload, "dataDir");
            var address, ip := Config(payload, "advertiseAddress"), Config(payload, "nodeIP");
            var init := Config(payload, "clusterInit");
            ServerArguments(payload) ==
            (if name == "" then [] else ["--node-name", name]) + (if dir == "" then [] else ["--data-dir", dir]) +
            (if |init| == 4 && init[0] in "tT" && init[1] in "rR" && init[2] in "uU" && init[3] in "eE" then
              ["--cluster-init"] else []) +
            (if address == "" then [] else ["--advertise-address", address]) +
            (if ip == "" then [] else ["--node-ip", ip]) +
            disables + StringList(payload, ["extraArgs", "args"])
  {
    AllRepeated("--disable", StringList(payload, ["disable", "disables"]), disables);
  }

  // ---- Flags and the arguments they stand for --------------------------------------------------

  predicate Writes(flag: string, argument: string) {
    flag == ShellQuote(argument) || (flag == argument && FixedWord(argument))
  }

  /** `flags` write `arguments`, each quoted or, when it is a fixed word, plainly. */
  predicate Write(flags: seq<string>, arguments: seq<string>) {
    |flags| == |arguments| && forall k :: 0 <= k < |flags| ==> Writes(flags[k], arguments[k])
  }

  function Pieces(flags: seq<string>, arguments: seq<string>): (pieces: seq<Piece>)
    requires |flags| == |arguments|
    ensures |pieces| == |flags|
  {
    seq(|flags|, k requires 0 <= k < |flags| =>
      if flags[k] == ShellQuote(arguments[k]) then Quoted("", arguments[k]) else Plain(arguments[k]))
  }

  lemma PiecesWrite(flags: seq<string>, arguments: seq<string>)
    requires Write(flags, arguments)
    ensures AllValid(Pieces(flags, arguments)) && Sources(Pieces(flags, arguments)) == flags
    ensures forall k :: 0 <= k < |flags| ==> !Pieces(flags, arguments)[k].Nothing?
  {
    var pieces := Pieces(flags, arguments);
    forall k | 0 <= k < |flags| ensures ValidPiece(pieces[k]) && Source(pieces[k]) == flags[k] {
      assert Writes(flags[k], arguments[k]);
      if flags[k] == ShellQuote(arguments[k]) {
        assert "" + ShellQuote(arguments[k]) == ShellQuote(arguments[k]);
      } else {
        FixedWordsAreBare(arguments[k]);
      }
    }
  }

  lemma PiecesMean(flags: seq<string>, arguments: seq<string>)
    requires Write(flags, arguments)
    ensures Meaning(Pieces(flags, arguments)) == Words(arguments)
  {
    WordsAt(arguments);
    forall k | 0 <= k < |flags| ensures TokensOf(Pieces(flags, arguments)[k]) == [Words(arguments)[k]] {
      assert "" + arguments[k] == arguments[k];
    }
    MeaningPerPiece(Pieces(flags, arguments), Words(arguments));
  }

  lemma {:induction false} WordsAt(texts: seq<string>)
    ensures |Words(texts)| == |texts| && forall k :: 0 <= k < |texts| ==> Words(texts)[k] == Word(texts[k])
    decreases |texts|
  {
    if texts != [] {
      WordsAt(texts[1..]);
    }
  }

  lemma {:induction false} SourcesAppend(a: seq<Piece>, b: seq<Piece>)
    ensures Sources(a + b) == Sources(a) + Sources(b)
  {
  }

  lemma {:induction false} MeaningAppend(a: seq<Piece>, b: seq<Piece>)
    ensures Meaning(a + b) == Meaning(a) + Meaning(b)
    decreases |a|
  {
    if a == [] {
      assert a + b == b;
    } else {
      assert (a + b)[1..] == a[1..] + b;
      MeaningAppend(a[1..], b);
    }
  }

  method AppendSetting(flags: seq<string>, name: string, value: string, ghost arguments: seq<string>)
        returns (r: seq<string>)
    requires Write(flags, arguments) && FixedWord(name)
    ensures Write(r, arguments + Setting(name, value))
  {
    r := flags;
    if value != "" {
      r := r + [name, ShellQuote(value)];
    }
  }

  method AppendEach(flags: seq<string>, name: string, values: seq<string>, ghost arguments: seq<string>)
        returns (r: seq<string>)
    requires Write(flags, arguments) && FixedWord(name)
    ensures Write(r, arguments + Repeated(name, values, |values|))
  {
    r := flags;
    for k := 0 to |values|
      invariant Write(r, arguments + Repeated(name, values, k))
    {
      r := r + [name, ShellQuote(values[k])];
    }
  }

  method AppendQuoted(flags: seq<string>, values: seq<string>, ghost arguments: seq<string>) returns (r: seq<string>)
    requires Write(flags, arguments)
    ensures Write(r, arguments + values)
  {
    r := flags;
    for k := 0 to |values|
      invariant Write(r, arguments + values[..k])
    {
      OneMore(arguments, values, k);
      r := r + [ShellQuote(values[k])];
    }
    assert values[..|values|] == values;
  }

  lemma OneMore(arguments: seq<string>, values: seq<string>, k: nat)
    requires k < |values|
    ensures arguments + values[..k + 1] == arguments + values[..k] + [values[k]]
  {
  }

  // ---- The commands ---------------------------------------------------------------------------

  function ServerUrl(payload: Payload): string {
    FirstNonEmpty([Config(payload, "serverUrl"), Config(payload, "url"), "<kernel-server-url>"])
  }

  function JoinToken(payload: Payload): string {
    FirstNonEmpty([Config(payload, "token"), Config(payload, "k3sToken"), "<k3s-token>"])
  }

  lemma OptionNames()
    ensures FixedWord("--node-name") && FixedWord("--node-ip") && FixedWord("--node-label") && FixedWord("--node-taint")
    ensures FixedWord("--data-dir") && FixedWord("--cluster-init") && FixedWord("--advertise-address") &&
            FixedWord("--disable")
  {
  }

  lemma ScriptWords()
    ensures FixedWord("curl") && FixedWord("-sfL") && FixedWord("https://get.k3s.io") && FixedWord("server")
    ensures FixedWord("sh") && FixedWord("-s") && FixedWord("-")
    ensures FixedWord("K3S_URL=") && FixedWord("K3S_TOKEN=") && FixedWord("INSTALL_K3S_EXEC=")
  {
  }

  predicate FixedPiece(piece: Piece) {
    match piece
    case Plain(text) => FixedWord(text)
    case Quoted(prefix, _) => FixedWord(prefix)
    case PipeSign => true
    case Nothing => true
  }

  lemma FixedPiecesAreValid(pieces: seq<Piece>)
    requires forall k :: 0 <= k < |pieces| ==> FixedPiece(pieces[k])
    ensures AllValid(pieces)
  {
    forall k | 0 <= k < |pieces| ensures ValidPiece(pieces[k]) {
      var piece := pieces[k];
      if piece.Plain? { FixedWordsAreBare(piece.text); }
      if piece.Quoted? { FixedWordsAreBare(piece.prefix); }
    }
  }

  method JoinFlags(payload: Payload) returns (flags: seq<string>)
    ensures Write(flags, JoinArguments(payload))
  {
    ghost var said: seq<string> := [];
    OptionNames();
    flags := [];
    flags := AppendSetting(flags, "--node-name", Config(payload, "nodeName"), said);
    said := said + Setting("--node-name", Config(payload, "nodeName"));
    flags := AppendSetting(flags, "--node-ip", Config(payload, "nodeIP"), said);
    said := said + Setting("--node-ip", Config(payload, "nodeIP"));
    var labels := StringList(payload, ["labels"]);
    flags := AppendEach(flags, "--node-label", labels, said);
    said := said + Repeated("--node-label", labels, |labels|);
    var taints := StringList(payload, ["taints"]);
    flags := AppendEach(flags, "--node-taint", taints, said);
    said := said + Repeated("--node-taint", taints, |taints|);
    flags := AppendQuoted(flags, StringList(payload, ["extraArgs", "args"]), said);
    assert [] + Setting("--node-name", Config(payload, "nodeName")) ==
           Setting("--node-name", Config(payload, "nodeName"));
  }

  method ServerFlags(payload: Payload) returns (flags: seq<string>)
    ensures Write(flags, ServerArguments(payload))
  {
    ghost var said: seq<string> := [];
    OptionNames();
    flags := [];
    flags := AppendSetting(flags, "--node-name", Config(payload, "nodeName"), said);
    said := said + Setting("--node-name", Config(payload, "nodeName"));
    flags := AppendSetting(flags, "--data-dir", Config(payload, "dataDir"), said);
    said := said + Setting("--data-dir", Config(payload, "dataDir"));
    if IsTrue(Config(payload, "clusterInit")) {
      flags := flags + ["--cluster-init"];
    }
    said := said + if IsTrue(Config(payload, "clusterInit")) then ["--cluster-init"] else [];
    flags := AppendSetting(flags, "--advertise-address", Config(payload, "advertiseAddress"), said);
    said := said + Setting("--advertise-address", Config(payload, "advertiseAddress"));
    flags := AppendSetting(flags, "--node-ip", Config(payload, "nodeIP"), said);
    said := said + Setting("--node-ip", Config(payload, "nodeIP"));
    var disables := StringList(payload, ["disable", "disables"]);
    flags := AppendEach(flags, "--disable", disables, said);
    said := said + Repeated("--disable", disables, |disables|);
    flags := AppendQuoted(flags, StringList(payload, ["extraArgs", "args"]), said);
    assert [] + Setting("--node-name", Config(payload, "nodeName")) ==
           Setting("--node-name", Config(payload, "nodeName"));
  }

  /** The words before the joining agent's own arguments. */
  function JoinHead(payload: Payload): seq<Token> {
    [Word("curl"), Word("-sfL"), Word("https://get.k3s.io"), Pipe,
     Word("K3S_URL=" + ServerUrl(payload)), Word("K3S_TOKEN=" + JoinToken(payload)),
     Word("sh"), Word("-s"), Word("-")]
  }

  /** The shell reads the join script as one pipeline, whatever the payload holds: its last
      words are exactly the requested arguments. */
  method BuildK3sJoinAgentCommand(payload: Payload) returns (command: seq<string>)
    ensures |command| == 3 && command[0] == "sh" && command[1] == "-c"
    ensures Tokenise(command[2]) == Some(JoinHead(payload) + Words(JoinArguments(payload)))
  {
    var flags := JoinFlags(payload);
    var script := JoinScript(payload, flags);
    JoinScriptTokens(payload, flags, JoinArguments(payload));
    command := ["sh", "-c", script];
  }

  function JoinHeadPieces(payload: Payload): seq<Piece> {
    [Plain("curl"), Plain("-sfL"), Plain("https://get.k3s.io"), PipeSign,
     Quoted("K3S_URL=", ServerUrl(payload)), Quoted("K3S_TOKEN=", JoinToken(payload)),
     Plain("sh"), Plain("-s"), Plain("-")]
  }

  function JoinHeadSources(payload: Payload): seq<string> {
    ["curl", "-sfL", "https://get.k3s.io", "|",
     "K3S_URL=" + ShellQuote(ServerUrl(payload)), "K3S_TOKEN=" + ShellQuote(JoinToken(payload)),
     "sh", "-s", "-"]
  }

  lemma JoinHeadIsValid(payload: Payload)
    ensures AllValid(JoinHeadPieces(payload))
  {
    ScriptWords();
    FixedPiecesAreValid(JoinHeadPieces(payload));
  }

  lemma JoinHeadText(payload: Payload)
    ensures Sources(JoinHeadPieces(payload)) == JoinHeadSources(payload)
  {
    SourcesAre(JoinHeadPieces(payload), JoinHeadSources(payload));
  }

  lemma JoinHeadMeaning(payload: Payload)
    ensures Meaning(JoinHeadPieces(payload)) == JoinHead(payload)
  {
    MeaningPerPiece(JoinHeadPieces(payload), JoinHead(payload));
  }

  lemma {:induction false} MeaningPerPiece(pieces: seq<Piece>, tokens: seq<Token>)
    requires |pieces| == |tokens| && forall k :: 0 <= k < |pieces| ==> TokensOf(pieces[k]) == [tokens[k]]
    ensures Meaning(pieces) == tokens
    decreases |pieces|
  {
    if pieces != [] {
      MeaningPerPiece(pieces[1..], tokens[1..]);
    }
  }

  /** A head of valid pieces followed by the flags, trimmed and joined. */
  lemma HeadAndFlags(head: seq<Piece>, flags: seq<string>, arguments: seq<string>)
    requires AllValid(head) && Write(flags, arguments)
    ensures Tokenise(Join(Sources(head) + [TrimSpace(Join(flags, " "))], " ")) == Some(Meaning(head) + Words(arguments))
  {
    var pieces := Pieces(flags, arguments);
    PiecesWrite(flags, arguments);
    PiecesMean(flags, arguments);
    TrimmedJoin(pieces);
    if pieces == [] {
      assert Join(flags, " ") == "" && Sources([Nothing]) == [""];
      assert Meaning([Nothing]) == Words(arguments);
      HeadAndTail(head, [Nothing]);
    } else {
      JoinNested(Sources(head), flags);
      HeadAndTail(head, pieces);
    }
  }

  lemma HeadAndTail(head: seq<Piece>, tail: seq<Piece>)
    requires AllValid(head) && AllValid(tail)
    ensures Tokenise(Join(Sources(head) + Sources(tail), " ")) == Some(Meaning(head) + Meaning(tail))
  {
    SourcesAppend(head, tail);
    MeaningAppend(head, tail);
    JoinedScans(head + tail, []);
    assert [] + Meaning(head + tail) == Meaning(head + tail);
  }

  function JoinScript(payload: Payload, flags: seq<string>): string {
    Join(JoinHeadSources(payload) + [TrimSpace(Join(flags, " "))], " ")
  }

  lemma JoinScriptTokens(payload: Payload, flags: seq<string>, arguments: seq<string>)
    requires Write(flags, arguments)
    ensures Tokenise(JoinScript(payload, flags)) == Some(JoinHead(payload) + Words(arguments))
  {
    JoinHeadIsValid(payload);
    JoinHeadText(payload);
    JoinHeadMeaning(payload);
    HeadAndFlags(JoinHeadPieces(payload), flags, arguments);
  }

  function InstallWords(exec: string, payload: Payload): seq<Token> {
    [Word("curl"), Word("-sfL"), Word("https://get.k3s.io"), Pipe,
     Word("INSTALL_K3S_EXEC=" + exec), Word("K3S_TOKEN=" + JoinToken(payload)), Word("sh"), Word("-")]
  }

  function InstallPieces(exec: string, payload: Payload): seq<Piece> {
    [Plain("curl"), Plain("-sfL"), Plain("https://get.k3s.io"), PipeSign,
     Quoted("INSTALL_K3S_EXEC=", exec), Quoted("K3S_TOKEN=", JoinToken(payload)), Plain("sh"), Plain("-")]
  }

  /** The script hands the installer one text, and reading that text once more gives the
      word `server` and the requested arguments. */
  ghost predicate Installs(script: string, exec: string, payload: Payload, arguments: seq<string>) {
    && Tokenise(script) == Some(InstallWords(exec, payload))
    && Tokenise(exec) == Some([Word("server")] + Words(arguments))
  }

  ghost predicate InstallsServer(script: string, payload: Payload, arguments: seq<string>) {
    exists exec :: Installs(script, exec, payload, arguments)
  }

  method BuildK3sInstallServerCommand(payload: Payload) returns (command: seq<string>)
    ensures |command| == 3 && command[0] == "sh" && command[1] == "-c"
    ensures InstallsServer(command[2], payload, ServerArguments(payload))
  {
    var flags := ServerFlags(payload);
    var exec := TrimSpace(Join(["server"] + flags, " "));
    var script := InstallScript(exec, payload);
    InstallScriptInstalls(flags, payload, ServerArguments(payload));
    command := ["sh", "-c", script];
  }

  function InstallScript(exec: string, payload: Payload): string {
    Join(InstallSources(exec, payload), " ")
  }

  lemma InstallScriptInstalls(flags: seq<string>, payload: Payload, arguments: seq<string>)
    requires Write(flags, arguments)
    ensures InstallsServer(InstallScript(TrimSpace(Join(["server"] + flags, " ")), payload), payload, arguments)
  {
    var exec := TrimSpace(Join(["server"] + flags, " "));
    ExecTokens(flags, arguments);
    InstallScriptTokens(exec, payload);
    assert Installs(InstallScript(exec, payload), exec, payload, arguments);
  }

  lemma ExecTokens(flags: seq<string>, arguments: seq<string>)
    requires Write(flags, arguments)
    ensures Tokenise(TrimSpace(Join(["server"] + flags, " "))) == Some([Word("server")] + Words(arguments))
  {
    ScriptWords();
    JoinedFlags(["server"] + flags, ["server"] + arguments);
    assert (["server"] + arguments)[1..] == arguments;
  }

  lemma JoinedFlags(flags: seq<string>, arguments: seq<string>)
    requires Write(flags, arguments)
    ensures Tokenise(TrimSpace(Join(flags, " "))) == Some(Words(arguments))
  {
    var pieces := Pieces(flags, arguments);
    PiecesWrite(flags, arguments);
    PiecesMean(flags, arguments);
    TrimmedJoin(pieces);
    JoinedScans(pieces, []);
    assert [] + Meaning(pieces) == Meaning(pieces);
  }

  lemma InstallScriptTokens(exec: string, payload: Payload)
    ensures Tokenise(InstallScript(exec, payload)) == Some(InstallWords(exec, payload))
  {
    var pieces := InstallPieces(exec, payload);
    InstallPiecesAreValid(exec, payload);
    InstallPiecesText(exec, payload);
    InstallMeaning(exec, payload);
    JoinedScans(pieces, []);
    assert [] + Meaning(pieces) == Meaning(pieces);
  }

  lemma InstallMeaning(exec: string, payload: Payload)
    ensures Meaning(InstallPieces(exec, payload)) == InstallWords(exec, payload)
  {
    MeaningPerPiece(InstallPieces(exec, payload), InstallWords(exec, payload));
  }

  function InstallSources(exec: string, payload: Payload): seq<string> {
    ["curl", "-sfL", "https://get.k3s.io", "|",
     "INSTALL_K3S_EXEC=" + ShellQuote(exec), "K3S_TOKEN=" + ShellQuote(JoinToken(payload)), "sh", "-"]
  }

  lemma InstallPiecesAreValid(exec: string, payload: Payload)
    ensures AllValid(InstallPieces(exec, payload))
  {
    ScriptWords();
    FixedPiecesAreValid(InstallPieces(exec, payload));
  }

  lemma InstallPiecesText(exec: string, payload: Payload)
    ensures Sources(InstallPieces(exec, payload)) == InstallSources(exec, payload)
  {
    SourcesAre(InstallPieces(exec, payload), InstallSources(exec, payload));
  }

  lemma SourcesAre(pieces: seq<Piece>, sources: seq<string>)
    requires |pieces| == |sources| && forall k :: 0 <= k < |pieces| ==> Source(pieces[k]) == sources[k]
    ensures Sources(pieces) == sources
  {
  }
}
