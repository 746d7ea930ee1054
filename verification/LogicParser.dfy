// parser.go: a logic file is a SQL or JavaScript text with YAML front matter, either
// between two --- or in a leading block comment. What YAML means is left open: it is
// a function of the text and of the config it is read into.
module LogicParser {
  import opened Text
  import opened GoStrings

  datatype Param = Param(typ: string, required: bool, fallback: string)

  datatype Config = Config(target: string, params: Option<map<string, Param>>, access: string, cache: string,
                           namespace: string, name: string, sql: string, js: string)

  type Yaml = (string, Config) -> Option<Config>

  const EMPTY := Config("", None, "", "", "", "", "", "")

  // ---------- front matter ----------

  const DASHES := "---"

  datatype Parts = Parts(yaml: string, rest: string)

  // The second and third part of strings.SplitN(s, "---", 3), if there are three.
  function SplitThree(s: string): Option<Parts>
    requires DASHES <= s
  {
    var tail := s[3..];
    var cut := Index(tail, DASHES);
    if cut.Some? then Some(Parts(tail[..cut.value], tail[cut.value + 3..])) else None
  }

  // In "/*/" the closing mark of a comment shares its star with the opening one.
  predicate SharesStar(trimmed: string) {
    "/*/" <= trimmed
  }

  // Where the comment at the start of the text ends.
  function CommentEnd(trimmed: string): (r: Option<nat>)
    requires !SharesStar(trimmed)
    ensures r.Some? ==> 2 <= r.value && r.value + 2 <= |trimmed|
  {
    if "/*" <= trimmed then
      var r := Index(trimmed, "*/");
      if r.Some? then
        assert trimmed[0] == '/' && trimmed[1] == '*' && (|trimmed| > 2 ==> trimmed[2] != '/');
        assert "*/"[0] == trimmed[r.value..][0] && "*/"[1] == trimmed[r.value..][1];
        r
      else None
    else None
  }

  // The front matter of a comment at the start, and the trimmed text after it.
  function BlockParts(trimmed: string): Option<Parts>
    requires !SharesStar(trimmed)
  {
    var end := CommentEnd(trimmed);
    if end.None? then None
    else
      var comment := TrimSpace(trimmed[2..end.value]);
      if !(DASHES <= comment) then None
      else
        var parts := SplitThree(comment);
        if parts.None? then None else Some(Parts(parts.value.yaml, TrimSpace(trimmed[end.value + 2..])))
  }

  function PlainParts(trimmed: string): Option<Parts> {
    if !(DASHES <= trimmed) then None
    else
      var parts := SplitThree(trimmed);
      if parts.None? then None else Some(Parts(parts.value.yaml, TrimSpace(parts.value.rest)))
  }

  datatype Outcome = Parsed(config: Config) | YamlError | Panic

  function WithContent(config: Config, content: string, filename: string): Config {
    if HasSuffix(filename, ".sql") then config.(sql := content)
    else if HasSuffix(filename, ".js") then config.(js := content)
    else config
  }

  // c is the config with the content as its SQL or its JavaScript, by the file's name.
  ghost predicate Filed(c: Config, config: Config, content: string, filename: string) {
    c == if EndsIn(filename, ".sql") then config.(sql := content)
         else if EndsIn(filename, ".js") then config.(js := content)
         else config
  }

  lemma {:induction false} FiledIs(config: Config, content: string, filename: string)
    ensures Filed(WithContent(config, content, filename), config, content, filename)
  {
    hide HasSuffix, EndsIn;
    SuffixIs(filename, ".sql");
    SuffixIs(filename, ".js");
  }

  // A text that starts with neither mark is the content as it stands, not even trimmed.
  lemma {:induction false} NoFrontMatter(content: string, filename: string, meaning: Yaml)
    requires var trimmed := TrimSpace(content); !("/*" <= trimmed) && !("---" <= trimmed)
    ensures Interpret(content, filename, meaning).Parsed?
    ensures Filed(Interpret(content, filename, meaning).config, EMPTY, content, filename)
  {
    hide TrimSpace, WithContent, Filed;
    var trimmed := TrimSpace(content);
    FiledIs(EMPTY, content, filename);
    assert "/*" <= "/*/";
  }

  function InterpretPlain(content: string, config: Config, filename: string, yaml: Yaml): Outcome {
    match PlainParts(TrimSpace(content))
    case None => Parsed(WithContent(config, content, filename))
    case Some(parts) =>
      match yaml(parts.yaml, config)
      case None => YamlError
      case Some(read) => Parsed(WithContent(read, parts.rest, filename))
  }

  // A text can have both forms, the block comment first.
  function Interpret(content: string, filename: string, yaml: Yaml): Outcome {
    var trimmed := TrimSpace(content);
    if SharesStar(trimmed) then Panic
    else
      match BlockParts(trimmed)
      case None => InterpretPlain(content, EMPTY, filename, yaml)
      case Some(block) =>
        match yaml(block.yaml, EMPTY)
        case None => YamlError
        case Some(config) => InterpretPlain(block.rest, config, filename, yaml)
  }

  // ---------- configs on the heap ----------

  class LogicConfig {
    var target: string
    var params: Option<map<string, Param>>
    var access: string
    var cache: string
    var namespace: string
    var name: string
    var sql: string
    var js: string

    function Value(): Config
      reads this
    {
      Config(target, params, access, cache, namespace, name, sql, js)
    }

    constructor ()
      ensures Value() == EMPTY
    {
      target, params, access, cache := "", None, "", "";
      namespace, name, sql, js := "", "", "", "";
    }

    // yaml.Unmarshal
    method Unmarshal(text: string, yaml: Yaml) returns (ok: bool)
      modifies this
      ensures match yaml(text, old(Value()))
              case None => !ok
              case Some(read) => ok && Value() == read
    {
      match yaml(text, Value()) {
        case None => ok := false;
        case Some(read) =>
          target, params, access, cache := read.target, read.params, read.access, read.cache;
          namespace, name, sql, js := read.namespace, read.name, read.sql, read.js;
          ok := true;
      }
    }
  }

  method ParseLogicFile(text: string, filename: string, yaml: Yaml) returns (config: LogicConfig?, panicked: bool)
    ensures match Interpret(text, filename, yaml)
            case Parsed(value) => config != null && fresh(config) && config.Value() == value && !panicked
            case YamlError => config == null && !panicked
            case Panic => config == null && panicked
  {
    hide TrimSpace, BlockParts, PlainParts, HasSuffix, SharesStar;
    var content := text;
    var result := new LogicConfig();
    var trimmed := TrimSpace(content);
    if SharesStar(trimmed) {
      return null, true;
    }
    var block := BlockParts(trimmed);
    if block.Some? {
      var ok := result.Unmarshal(block.value.yaml, yaml);
      if !ok {
        return null, false;
      }
      content := block.value.rest;
    }
    var parts := PlainParts(TrimSpace(content));
    if parts.Some? {
      var ok := result.Unmarshal(parts.value.yaml, yaml);
      if !ok {
        return null, false;
      }
      content := parts.value.rest;
    }
    if HasSuffix(filename, ".sql") {
      result.sql := content;
    } else if HasSuffix(filename, ".js") {
      result.js := content;
    }
    return result, false;
  }

  method ParseLogicMetadata(content: string, yaml: Yaml) returns (config: LogicConfig?)
    ensures match yaml(content, EMPTY)
            case None => config == null
            case Some(value) => config != null && fresh(config) && config.Value() == value
  {
    var result := new LogicConfig();
    var ok := result.Unmarshal(content, yaml);
    config := if ok then result else null;
  }

  // ---------- validation ----------

  const TYPES := {"string", "int", "bool", "json"}

  predicate Blank(s: string) {
    TrimSpace(s) == ""
  }

  predicate Valid(c: Config) {
    && !Blank(c.namespace) && c.namespace != "."
    && !Blank(c.name)
    && (Blank(c.sql) <==> !Blank(c.js))
    && (c.access == "" || !Blank(c.access))
    && (c.params.Some? ==> forall p :: p in c.params.value ==> c.params.value[p].typ in {"string", "int", "bool", "json"})
  }

  method ValidateLogicConfig(config: LogicConfig) returns (ok: bool)
    ensures ok <==> Valid(config.Value())
  {
    hide Blank;
    if Blank(config.namespace) || config.namespace == "." || Blank(config.name) {
      return false;
    }
    var hasSql, hasJs := !Blank(config.sql), !Blank(config.js);
    if (!hasSql && !hasJs) || (hasSql && hasJs) {
      return false;
    }
    if config.access != "" && Blank(config.access) {
      return false;
    }
    if config.params.Some? {
      var params := config.params.value;
      var names := params.Keys;
      while names != {}
        invariant names <= params.Keys
        invariant forall p :: p in params && p !in names ==> params[p].typ in TYPES
        decreases |names|
      {
        var name :| name in names;
        if params[name].typ !in TYPES {
          return false;
        }
        names := names - {name};
      }
    }
    ok := true;
  }

  // ---------- front matter is recovered ----------

  ghost predicate OccursIn(sub: string, s: string) {
    exists i :: 0 <= i <= |s| && sub <= s[i..]
  }

  // The YAML text is told apart from the three dashes after it.
  ghost predicate Separated(yaml: string) {
    forall i :: 0 <= i < |yaml| ==> !(DASHES <= (yaml + DASHES)[i..])
  }

  lemma {:induction false} NewlineSeparates(yaml: string)
    requires yaml == [] || yaml[|yaml| - 1] == '\n'
    requires !OccursIn(DASHES, yaml)
    ensures Separated(yaml)
  {
    var s := yaml + DASHES;
    forall i | 0 <= i < |yaml| ensures !(DASHES <= s[i..]) {
      if i + 3 <= |yaml| {
        PrefixIsLocal(DASHES, yaml, DASHES, i);
        assert 0 <= i <= |yaml|;
      } else {
        var k := |yaml| - 1 - i;
        assert s[i..][k] == '\n' && DASHES[k] == '-';
      }
    }
  }

  lemma {:induction false} PrefixIsLocal(sub: string, a: string, b: string, i: nat)
    requires i + |sub| <= |a|
    ensures sub <= (a + b)[i..] <==> sub <= a[i..]
  {
    assert (a + b)[i..][..|sub|] == a[i..][..|sub|];
  }

  lemma {:induction false} SplitRecovers(yaml: string, rest: string)
    ensures DASHES <= DASHES + yaml + DASHES + rest
    ensures SplitThree(DASHES + yaml + DASHES + rest) == Some(Parts(yaml, rest)) <==> Separated(yaml)
  {
    var s := DASHES + yaml + DASHES + rest;
    var tail := s[3..];
    assert tail == yaml + DASHES + rest;
    assert tail[|yaml|..] == DASHES + rest && tail[|yaml|..][..3] == DASHES;
    assert tail[|yaml| + 3..] == rest && tail[..|yaml|] == yaml;
    var cut := Index(tail, DASHES);
    forall i | 0 <= i < |yaml| ensures DASHES <= tail[i..] <==> DASHES <= (yaml + DASHES)[i..] {
      PrefixIsLocal(DASHES, yaml + DASHES, rest, i);
    }
    assert cut.Some? && cut.value <= |yaml|;
    if cut.value < |yaml| {
      assert |tail[..cut.value]| < |yaml|;
    }
  }

  // The plain form gives back the YAML text and the trimmed body, whatever the body is,
  // for exactly the separated texts.
  lemma {:induction false} PlainFormRecovers(yaml: string, body: string)
    ensures PlainParts(TrimSpace(DASHES + yaml + DASHES + body)) == Some(Parts(yaml, TrimSpace(body))) <==> Separated(yaml)
  {
    hide Separated, TrimSpace, TrimRight, SplitThree;
    var front := DASHES + yaml + DASHES;
    assert !IsSpace(front[0]) && !IsSpace(front[|front| - 1]);
    TrimAfter(front, body);
    SplitRecovers(yaml, TrimRight(body, IsSpace));
    TrimTwice(body);
    PlainCutShort(yaml, TrimRight(body, IsSpace));
  }

  lemma {:induction false} PlainCutShort(yaml: string, rest: string)
    requires DASHES <= DASHES + yaml + DASHES + rest
    ensures var parts := SplitThree(DASHES + yaml + DASHES + rest);
            parts.Some? && parts.value.yaml == yaml ==> parts.value.rest == rest
  {
    var tail := (DASHES + yaml + DASHES + rest)[3..];
    assert tail == yaml + DASHES + rest;
    assert tail[|yaml| + 3..] == rest;
  }

  lemma {:induction false} PlainRoundTrip(yaml: string, body: string, filename: string, meaning: Yaml)
    requires Separated(yaml)
    ensures var outcome := Interpret("---" + yaml + "---" + body, filename, meaning);
            match meaning(yaml, EMPTY)
            case None => outcome == YamlError
            case Some(config) => outcome.Parsed? && Filed(outcome.config, config, TrimSpace(body), filename)
  {
    hide Separated, TrimSpace, TrimRight, SplitThree, PlainParts, WithContent, Filed;
    forall config ensures Filed(WithContent(config, TrimSpace(body), filename), config, TrimSpace(body), filename) {
      FiledIs(config, TrimSpace(body), filename);
    }
    PlainFormRecovers(yaml, body);
    var front := DASHES + yaml + DASHES;
    assert !IsSpace(front[0]) && !IsSpace(front[|front| - 1]);
    TrimAfter(front, body);
    assert (front + TrimRight(body, IsSpace))[0] == '-';
  }

  // The text between the dashes of a block comment.
  function BlockForm(before: string, yaml: string, after: string, body: string): string {
    "/*" + (before + DASHES + yaml + DASHES + after) + "*/" + body
  }

  lemma {:induction false} BlockFormRecovers(before: string, yaml: string, after: string, body: string)
    requires AllSpace(before) && AllSpace(after) && !OccursIn("*/", yaml)
    ensures var trimmed := TrimSpace(BlockForm(before, yaml, after, body));
            && !SharesStar(trimmed)
            && (BlockParts(trimmed) == Some(Parts(yaml, TrimSpace(body))) <==> Separated(yaml))
  {
    hide Separated, TrimSpace, TrimRight, SplitThree, CommentEnd, SharesStar, OccursIn;
    var inner, rest := before + DASHES + yaml + DASHES + after, TrimRight(body, IsSpace);
    BlockTrimmed(inner, body);
    assert BlockForm(before, yaml, after, body) == "/*" + inner + "*/" + body;
    InnerHasNoEnd(before, yaml, after);
    EndFound(inner, rest);
    FrontCut(inner, rest);
    InnerTrimmed(before, yaml, after);
    assert DASHES + yaml + DASHES + [] == DASHES + yaml + DASHES;
    SplitRecovers(yaml, []);
    PlainCutShort(yaml, []);
    TrimTwice(body);
  }

  lemma {:induction false} BlockTrimmed(inner: string, body: string)
    ensures TrimSpace("/*" + inner + "*/" + body) == "/*" + inner + "*/" + TrimRight(body, IsSpace)
  {
    hide TrimSpace, TrimRight;
    var front := "/*" + inner + "*/";
    assert !IsSpace(front[0]) && !IsSpace(front[|front| - 1]);
    TrimAfter(front, body);
  }

  lemma {:induction false} InnerTrimmed(before: string, yaml: string, after: string)
    requires AllSpace(before) && AllSpace(after)
    ensures TrimSpace(before + DASHES + yaml + DASHES + after) == DASHES + yaml + DASHES
  {
    hide TrimSpace, TrimRight;
    var dashed := DASHES + yaml + DASHES;
    assert !IsSpace(dashed[0]) && !IsSpace(dashed[|dashed| - 1]);
    assert before + DASHES + yaml + DASHES + after == before + (dashed + after);
    TrimBefore(before, dashed + after);
    TrimAfter(dashed, after);
    TrimAllSpace(after);
  }

  lemma {:induction false} EndMark(s: string, i: nat)
    requires i <= |s|
    ensures "*/" <= s[i..] <==> i + 2 <= |s| && s[i] == '*' && s[i + 1] == '/'
  {
    if i + 2 <= |s| {
      assert s[i..][0] == s[i] && s[i..][1] == s[i + 1];
    }
  }

  lemma {:induction false} FrontCut(inner: string, rest: string)
    ensures ("/*" + inner + "*/" + rest)[2..|inner| + 2] == inner && ("/*" + inner + "*/" + rest)[|inner| + 4..] == rest
  {
  }

  // The comment is not closed early.
  lemma {:induction false} InnerHasNoEnd(before: string, yaml: string, after: string)
    requires AllSpace(before) && AllSpace(after) && !OccursIn("*/", yaml)
    ensures !OccursIn("*/", before + DASHES + yaml + DASHES + after)
    ensures var inner := before + DASHES + yaml + DASHES + after; inner[0] != '/' && inner[|inner| - 1] != '*'
  {
    var inner := before + DASHES + yaml + DASHES + after;
    var start := |before| + 3;
    forall i | 0 <= i <= |inner| ensures !("*/" <= inner[i..]) {
      EndMark(inner, i);
      if start <= i && i + 2 <= start + |yaml| {
        EndMark(yaml, i - start);
        assert inner[i] == yaml[i - start] && inner[i + 1] == yaml[i - start + 1];
        assert 0 <= i - start <= |yaml| && !("*/" <= yaml[i - start..]);
      }
    }
  }

  lemma {:induction false} EndFound(inner: string, rest: string)
    requires inner != [] && inner[0] != '/' && inner[|inner| - 1] != '*' && !OccursIn("*/", inner)
    ensures !SharesStar("/*" + inner + "*/" + rest)
    ensures CommentEnd("/*" + inner + "*/" + rest) == Some(|inner| + 2)
  {
    var s := "/*" + inner + "*/" + rest;
    forall i | 0 <= i < |inner| + 2 ensures !("*/" <= s[i..]) {
      EndMark(s, i);
      if 2 <= i && i <= |inner| {
        EndMark(inner, i - 2);
        assert 0 <= i - 2 <= |inner| && !("*/" <= inner[i - 2..]);
      }
    }
    assert s[|inner| + 2..][..2] == "*/";
    assert s[2] == inner[0];
  }

  // The block form too, when what is left of the body has no front matter of its own.
  lemma {:induction false} BlockRoundTrip(before: string, yaml: string, after: string, body: string, filename: string, meaning: Yaml)
    requires AllSpace(before) && AllSpace(after) && !OccursIn("*/", yaml) && Separated(yaml)
    requires PlainParts(TrimSpace(body)).None?
    ensures var outcome := Interpret(BlockForm(before, yaml, after, body), filename, meaning);
            match meaning(yaml, EMPTY)
            case None => outcome == YamlError
            case Some(config) => outcome.Parsed? && Filed(outcome.config, config, TrimSpace(body), filename)
  {
    hide Separated, TrimSpace, TrimRight, SplitThree, PlainParts, BlockParts, WithContent, BlockForm, Filed;
    forall config ensures Filed(WithContent(config, TrimSpace(body), filename), config, TrimSpace(body), filename) {
      FiledIs(config, TrimSpace(body), filename);
    }
    BlockFormRecovers(before, yaml, after, body);
    TrimTwice(body);
  }

  // A text with both forms: the comment is read first, the plain form into what it gave.
  lemma {:induction false} BothRoundTrip(before: string, yaml: string, after: string, plain: string, body: string, filename: string,
                                         meaning: Yaml)
    requires AllSpace(before) && AllSpace(after) && !OccursIn("*/", yaml) && Separated(yaml) && Separated(plain)
    ensures var outcome := Interpret(BlockForm(before, yaml, after, "---" + plain + "---" + body), filename, meaning);
            match meaning(yaml, EMPTY)
            case None => outcome == YamlError
            case Some(first) =>
              match meaning(plain, first)
              case None => outcome == YamlError
              case Some(config) => outcome.Parsed? && Filed(outcome.config, config, TrimSpace(body), filename)
  {
    hide Separated, TrimSpace, TrimRight, SplitThree, PlainParts, BlockParts, WithContent, BlockForm, Filed;
    var second := DASHES + plain + DASHES + body;
    BlockFormRecovers(before, yaml, after, second);
    TrimTwice(second);
    PlainFormRecovers(plain, body);
    forall config ensures Filed(WithContent(config, TrimSpace(body), filename), config, TrimSpace(body), filename) {
      FiledIs(config, TrimSpace(body), filename);
    }
  }

  // The comment's slice has its end before its start, a panic, for exactly the texts
  // that start with "/*/".
  lemma {:induction false} SliceOutOfRange(trimmed: string)
    requires "/*" <= trimmed
    ensures SharesStar(trimmed) <==> Index(trimmed, "*/").Some? && Index(trimmed, "*/").value < 2
  {
    var end := Index(trimmed, "*/");
    assert trimmed[0] == '/' && trimmed[1] == '*';
    EndMark(trimmed, 0);
    EndMark(trimmed, 1);
    if SharesStar(trimmed) {
      assert trimmed[2] == "/*/"[2];
      assert "*/" <= trimmed[1..];
    } else if |trimmed| > 2 {
      assert trimmed[..3] == [trimmed[0], trimmed[1], trimmed[2]];
    }
  }
}
