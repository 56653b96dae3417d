/** The recommended scan command (internal/cli/plan.go) and a reader for it: the word rules of the
    Shell Command Language, IEEE Std 1003.1-2017, sections 2.2.2 (single quotes) and 2.2.3 (double
    quotes). The reader refuses whatever it would have to interpret, so a command it reads means the
    same words to every conforming shell. */
module ShellCommand {
  import opened Text
  import opened Findings

  // ---- reading words ----------------------------------------------------------------------------------------------

  datatype Quote = Unquoted | SingleQuoted | DoubleQuoted

  /** Characters that stand for themselves outside quotes. */
  predicate IsPlain(c: char) {
    'a' <= c <= 'z' || 'A' <= c <= 'Z' || '0' <= c <= '9' || c == '-' || c == '.' || c == '_' || c == '/'
  }

  /** Characters a shell interprets inside double quotes. */
  predicate IsActive(c: char) {
    c == '$' || c == '`' || c == '\\'
  }

  function SoFar(cur: Option<string>): string {
    match cur case Some(text) => text case None => ""
  }

  function Prepend(word: string, words: Option<seq<string>>): Option<seq<string>> {
    match words case Some(ws) => Some([word] + ws) case None => None
  }

  /** The words of `s`, read from inside the quotes `q` with the word `cur` under way; None for a
      command that is unterminated or not made of literal words. */
  function Read(s: string, q: Quote, cur: Option<string>): Option<seq<string>>
    decreases |s|
  {
    if s == [] then if q != Unquoted then None else Some(if cur.Some? then [cur.value] else [])
    else if s[0] == '\0' then None
    else
      match q
      case SingleQuoted =>
        if s[0] == '\'' then Read(s[1..], Unquoted, cur) else Read(s[1..], q, Some(SoFar(cur) + [s[0]]))
      case DoubleQuoted =>
        if s[0] == '"' then Read(s[1..], Unquoted, cur)
        else if IsActive(s[0]) then None
        else Read(s[1..], q, Some(SoFar(cur) + [s[0]]))
      case Unquoted =>
        if s[0] == '\'' then Read(s[1..], SingleQuoted, Some(SoFar(cur)))
        else if s[0] == '"' then Read(s[1..], DoubleQuoted, Some(SoFar(cur)))
        else if s[0] == ' ' then
          if cur.Some? then Prepend(cur.value, Read(s[1..], q, None)) else Read(s[1..], q, None)
        else if IsPlain(s[0]) then Read(s[1..], q, Some(SoFar(cur) + [s[0]]))
        else None
  }

  function ReadWords(s: string): Option<seq<string>> {
    Read(s, Unquoted, None)
  }

  /** Everything that means something to a shell where it stands is refused, not read as text: outside
      quotes whatever section 2.2 lists and all blanks but the space, inside double quotes the three
      characters of section 2.2.3, and NUL anywhere. */
  lemma ReaderRefuses(c: char, rest: string, cur: Option<string>)
    ensures c in "|&;<>()$`\\\t\n*?[]#~=%!{}" ==> Read([c] + rest, Unquoted, cur) == None
    ensures c in "$`\\" ==> Read([c] + rest, DoubleQuoted, cur) == None
    ensures forall q :: Read("\0" + rest, q, cur) == None
  {
  }

  // ---- quoting ------------------------------------------------------------------------------------------------------

  /** `strings.ReplaceAll` of each single quote by `'"'"'`. */
  function EscapeQuotes(v: string): string {
    if v == [] then [] else (if v[0] == '\'' then "'\"'\"'" else [v[0]]) + EscapeQuotes(v[1..])
  }

  function ShellQuoteArg(v: string): string {
    "'" + EscapeQuotes(v) + "'"
  }

  predicate NulFree(v: string) {
    '\0' !in v
  }

  /** Wherever it stands, `text` adds `word` to the word under way and leaves the reader unquoted. */
  ghost predicate ReadsAs(text: string, word: string) {
    forall rest: string :: Read(text + rest, Unquoted, None) == Read(rest, Unquoted, Some(word))
  }

  lemma {:induction false} EscapedReads(v: string, rest: string, cur: string)
    requires NulFree(v)
    ensures Read(EscapeQuotes(v) + "'" + rest, SingleQuoted, Some(cur)) == Read(rest, Unquoted, Some(cur + v))
  {
    var s := EscapeQuotes(v) + "'" + rest;
    if v == [] {
      assert s[1..] == rest && cur + v == cur;
    } else {
      var tail := EscapeQuotes(v[1..]) + "'" + rest;
      EscapedReads(v[1..], rest, cur + [v[0]]);
      assert cur + v == cur + [v[0]] + v[1..];
      if v[0] == '\'' {
        assert s == "'\"'\"'" + tail;
        QuotedQuote(tail, cur);
      } else {
        assert s == [v[0]] + tail;
        assert s[1..] == tail;
      }
    }
  }

  /** Close, a double-quoted single quote, open again. */
  lemma QuotedQuote(tail: string, cur: string)
    ensures Read("'\"'\"'" + tail, SingleQuoted, Some(cur)) == Read(tail, SingleQuoted, Some(cur + "'"))
  {
    var s := "'\"'\"'" + tail;
    assert s[1..] == "\"'\"'" + tail;
    assert s[1..][1..] == "'\"'" + tail;
    assert s[1..][1..][1..] == "\"'" + tail;
    assert s[1..][1..][1..][1..] == "'" + tail;
    assert s[1..][1..][1..][1..][1..] == tail;
    assert Read("'" + tail, Unquoted, Some(cur + "'")) == Read(tail, SingleQuoted, Some(cur + "'"));
    assert Read("\"'" + tail, DoubleQuoted, Some(cur + "'")) == Read("'" + tail, Unquoted, Some(cur + "'"));
    assert Read("'\"'" + tail, DoubleQuoted, Some(cur)) == Read("\"'" + tail, DoubleQuoted, Some(cur + "'"));
    assert Read("\"'\"'" + tail, Unquoted, Some(cur)) == Read("'\"'" + tail, DoubleQuoted, Some(cur));
  }

  /** A quoted value is read back whole, whatever it contains: quotes, blanks, nothing at all. */
  lemma QuotedReadsAsValue(v: string)
    requires NulFree(v)
    ensures ReadsAs(ShellQuoteArg(v), v)
  {
    forall rest: string
      ensures Read(ShellQuoteArg(v) + rest, Unquoted, None) == Read(rest, Unquoted, Some(v))
    {
      var s := ShellQuoteArg(v) + rest;
      assert s[1..] == EscapeQuotes(v) + "'" + rest;
      EscapedReads(v, rest, "");
      assert "" + v == v;
    }
  }

  ghost predicate AllPlain(p: string) {
    forall i | 0 <= i < |p| :: IsPlain(p[i])
  }

  lemma {:induction false} PlainReads(p: string, rest: string, cur: Option<string>)
    requires p != [] && AllPlain(p)
    ensures Read(p + rest, Unquoted, cur) == Read(rest, Unquoted, Some(SoFar(cur) + p))
  {
    var s := p + rest;
    assert s[1..] == p[1..] + rest;
    assert SoFar(cur) + p == SoFar(cur) + [p[0]] + p[1..];
    assert s[0] == p[0] && IsPlain(p[0]);
    if p[1..] == [] {
      assert s[1..] == rest && p == [p[0]];
    } else {
      PlainReads(p[1..], rest, Some(SoFar(cur) + [p[0]]));
    }
  }

  lemma PlainReadsAsItself(p: string)
    requires p != [] && AllPlain(p)
    ensures ReadsAs(p, p)
  {
    forall rest: string
      ensures Read(p + rest, Unquoted, None) == Read(rest, Unquoted, Some(p))
    {
      PlainReads(p, rest, None);
      assert "" + p == p;
    }
  }

  ghost predicate AllReadAs(parts: seq<string>, words: seq<string>) {
    |parts| == |words| && forall i | 0 <= i < |parts| :: ReadsAs(parts[i], words[i])
  }

  /** Parts joined by blanks are read as their words. */
  lemma {:induction false} JoinedReads(parts: seq<string>, words: seq<string>)
    requires AllReadAs(parts, words)
    ensures ReadWords(Join(parts, " ")) == Some(words)
  {
    if |parts| == 1 {
      assert ReadsAs(parts[0], words[0]);
      assert parts[0] + "" == parts[0];
      assert Read(parts[0] + "", Unquoted, None) == Read("", Unquoted, Some(words[0]));
      assert words == [words[0]];
    } else if |parts| > 1 {
      var tail := Join(parts[1..], " ");
      JoinedReads(parts[1..], words[1..]);
      assert ReadsAs(parts[0], words[0]);
      var rest := " " + tail;
      assert rest[1..] == tail;
      assert Join(parts, " ") == parts[0] + rest;
      assert words == [words[0]] + words[1..];
    }
  }

  // ---- the command --------------------------------------------------------------------------------------------------

  datatype Flag = TargetVersion | UpgradeContext | Provider | ClusterName | Manifests | HelmChart | NamespaceAllowlist

  function FlagText(f: Flag): string {
    match f
    case TargetVersion => "--target-version"
    case UpgradeContext => "--upgrade-context"
    case Provider => "--provider"
    case ClusterName => "--cluster-name"
    case Manifests => "--manifests"
    case HelmChart => "--helm-chart"
    case NamespaceAllowlist => "--namespace-allowlist"
  }

  datatype Arg = Arg(flag: Flag, value: string)

  datatype ScanInputs = ScanInputs(
    targetVersion: string, provider: string, clusterName: string, manifestDirs: seq<string>, helmCharts: seq<string>,
    namespaces: seq<string>, contexts: seq<string>)

  const UNSPECIFIED: string := "unspecified"

  function ContextOf(i: ScanInputs): string {
    if i.contexts == [] then UNSPECIFIED else i.contexts[0]
  }

  /** `strings.ReplaceAll` of "_" by "-". */
  function Dashed(s: string): string {
    seq(|s|, i requires 0 <= i < |s| => if s[i] == '_' then '-' else s[i])
  }

  function Repeated(f: Flag, values: seq<string>): seq<Arg> {
    seq(|values|, k requires 0 <= k < |values| => Arg(f, values[k]))
  }

  function When(given: bool, f: Flag, value: string): seq<Arg> {
    if given then [Arg(f, value)] else []
  }

  /** The flags and values the command stands for. */
  function ArgsFor(i: ScanInputs): seq<Arg> {
    When(true, TargetVersion, i.targetVersion)
    + When(ContextOf(i) != "" && ContextOf(i) != UNSPECIFIED, UpgradeContext, Dashed(ContextOf(i)))
    + When(i.provider != "", Provider, i.provider)
    + When(i.clusterName != "", ClusterName, i.clusterName)
    + Repeated(Manifests, i.manifestDirs)
    + Repeated(HelmChart, i.helmCharts)
    + When(i.namespaces != [], NamespaceAllowlist, Join(i.namespaces, ","))
  }

  /** Flags and values, the values passed through `quote`. */
  function Spread(args: seq<Arg>, quote: string -> string): seq<string> {
    if args == [] then []
    else Spread(args[..|args| - 1], quote) + [FlagText(args[|args| - 1].flag), quote(args[|args| - 1].value)]
  }

  lemma SpreadOne(args: seq<Arg>, a: Arg, quote: string -> string)
    ensures Spread(args + [a], quote) == Spread(args, quote) + [FlagText(a.flag), quote(a.value)]
  {
    assert (args + [a])[..|args|] == args;
  }

  method AddIf(parts: seq<string>, ghost args: seq<Arg>, given: bool, f: Flag, value: string)
    returns (more: seq<string>)
    requires parts == Spread(args, ShellQuoteArg)
    ensures more == Spread(args + When(given, f, value), ShellQuoteArg)
  {
    assert args + [] == args;
    SpreadOne(args, Arg(f, value), ShellQuoteArg);
    more := if given then parts + [FlagText(f), ShellQuoteArg(value)] else parts;
  }

  lemma RepeatedNext(f: Flag, values: seq<string>, k: nat)
    requires k < |values|
    ensures Repeated(f, values[..k + 1]) == Repeated(f, values[..k]) + [Arg(f, values[k])]
  {
    var some, more := values[..k], values[..k + 1];
    assert more == some + [values[k]];
  }

  lemma SpreadOneMore(args: seq<Arg>, repeated: seq<Arg>, a: Arg)
    ensures Spread(args + (repeated + [a]), ShellQuoteArg)
            == Spread(args + repeated, ShellQuoteArg) + [FlagText(a.flag), ShellQuoteArg(a.value)]
  {
    assert args + (repeated + [a]) == (args + repeated) + [a];
    SpreadOne(args + repeated, a, ShellQuoteArg);
  }

  method AddEach(parts: seq<string>, ghost args: seq<Arg>, f: Flag, values: seq<string>) returns (more: seq<string>)
    requires parts == Spread(args, ShellQuoteArg)
    ensures more == Spread(args + Repeated(f, values), ShellQuoteArg)
  {
    more := parts;
    assert args + Repeated(f, values[..0]) == args;
    for k := 0 to |values|
      invariant more == Spread(args + Repeated(f, values[..k]), ShellQuoteArg)
    {
      RepeatedNext(f, values, k);
      SpreadOneMore(args, Repeated(f, values[..k]), Arg(f, values[k]));
      more := more + [FlagText(f), ShellQuoteArg(values[k])];
    }
    assert values[..|values|] == values;
  }

  method BuildParts(i: ScanInputs) returns (parts: seq<string>)
    ensures parts == Spread(ArgsFor(i), ShellQuoteArg)
  {
    var context := ContextOf(i);
    ghost var args := When(true, TargetVersion, i.targetVersion);
    assert [] + args == args;
    parts := AddIf([], [], true, TargetVersion, i.targetVersion);
    parts := AddIf(parts, args, context != "" && context != UNSPECIFIED, UpgradeContext, Dashed(context));
    args := args + When(context != "" && context != UNSPECIFIED, UpgradeContext, Dashed(context));
    parts := AddIf(parts, args, i.provider != "", Provider, i.provider);
    args := args + When(i.provider != "", Provider, i.provider);
    parts := AddIf(parts, args, i.clusterName != "", ClusterName, i.clusterName);
    args := args + When(i.clusterName != "", ClusterName, i.clusterName);
    parts := AddEach(parts, args, Manifests, i.manifestDirs);
    args := args + Repeated(Manifests, i.manifestDirs);
    parts := AddEach(parts, args, HelmChart, i.helmCharts);
    args := args + Repeated(HelmChart, i.helmCharts);
    parts := AddIf(parts, args, i.namespaces != [], NamespaceAllowlist, Join(i.namespaces, ","));
  }

  /** `buildRecommendedScanCommand`. Read by the shell it splits back into exactly the intended flags
      and values. */
  method BuildRecommendedScanCommand(i: ScanInputs) returns (command: string)
    ensures command == Join(["kubepreflight", "scan"] + Spread(ArgsFor(i), ShellQuoteArg), " ")
    ensures InputsNulFree(i) ==> ReadWords(command) == Some(["kubepreflight", "scan"] + Spread(ArgsFor(i), Verbatim))
  {
    var parts := BuildParts(i);
    if InputsNulFree(i) {
      ArgsAreNulFree(i);
      CommandReadsBack(ArgsFor(i));
    }
    command := Join(["kubepreflight", "scan"] + parts, " ");
  }

  function Verbatim(v: string): string {
    v
  }

  predicate AllNulFree(vs: seq<string>) {
    forall v | v in vs :: NulFree(v)
  }

  predicate InputsNulFree(i: ScanInputs) {
    NulFree(i.targetVersion) && NulFree(i.provider) && NulFree(i.clusterName) && AllNulFree(i.manifestDirs)
    && AllNulFree(i.helmCharts) && AllNulFree(i.namespaces) && AllNulFree(i.contexts)
  }

  ghost predicate ValuesNulFree(args: seq<Arg>) {
    forall a | a in args :: NulFree(a.value)
  }

  lemma {:induction false} JoinIsNulFree(parts: seq<string>)
    requires AllNulFree(parts)
    ensures NulFree(Join(parts, ","))
  {
    if |parts| > 1 {
      JoinIsNulFree(parts[1..]);
      assert parts[0] in parts;
    } else if |parts| == 1 {
      assert parts[0] in parts;
    }
  }

  lemma ArgsAreNulFree(i: ScanInputs)
    requires InputsNulFree(i)
    ensures ValuesNulFree(ArgsFor(i))
  {
    JoinIsNulFree(i.namespaces);
    if i.contexts != [] {
      assert i.contexts[0] in i.contexts;
    }
    assert NulFree(ContextOf(i));
    assert NulFree(Dashed(ContextOf(i)));
  }

  lemma FlagReadsAsItself(f: Flag)
    ensures ReadsAs(FlagText(f), FlagText(f))
  {
    PlainReadsAsItself(FlagText(f));
  }

  lemma {:induction false} SpreadReads(args: seq<Arg>)
    requires ValuesNulFree(args)
    ensures AllReadAs(Spread(args, ShellQuoteArg), Spread(args, Verbatim))
  {
    if args != [] {
      var front, a := args[..|args| - 1], args[|args| - 1];
      SpreadReads(front);
      FlagReadsAsItself(a.flag);
      QuotedReadsAsValue(a.value);
      JoinReadings(Spread(front, ShellQuoteArg), Spread(front, Verbatim), [FlagText(a.flag), ShellQuoteArg(a.value)],
                   [FlagText(a.flag), a.value]);
    }
  }

  lemma JoinReadings(p: seq<string>, v: seq<string>, q: seq<string>, w: seq<string>)
    requires AllReadAs(p, v) && AllReadAs(q, w)
    ensures AllReadAs(p + q, v + w)
  {
  }

  /** Read by the shell, the command splits back into exactly the intended flags and values. */
  lemma CommandReadsBack(args: seq<Arg>)
    requires ValuesNulFree(args)
    ensures ReadWords(Join(["kubepreflight", "scan"] + Spread(args, ShellQuoteArg), " "))
            == Some(["kubepreflight", "scan"] + Spread(args, Verbatim))
  {
    PlainReadsAsItself("kubepreflight");
    PlainReadsAsItself("scan");
    SpreadReads(args);
    JoinReadings(["kubepreflight", "scan"], ["kubepreflight", "scan"], Spread(args, ShellQuoteArg),
                 Spread(args, Verbatim));
    JoinedReads(["kubepreflight", "scan"] + Spread(args, ShellQuoteArg),
                ["kubepreflight", "scan"] + Spread(args, Verbatim));
  }

  // ---- reading flags ------------------------------------------------------------------------------------------------

  /** What the scan command holds after its flags are read: single flags keep the last value,
      repeatable ones collect theirs. */
  datatype ScanFlags = ScanFlags(
    targetVersion: string, context: string, provider: string, clusterName: string, manifests: seq<string>,
    helmCharts: seq<string>, namespaceLists: seq<string>)

  const DEFAULT_FLAGS: ScanFlags := ScanFlags("", UNSPECIFIED, "", "", [], [], [])

  function Apply(acc: ScanFlags, a: Arg): ScanFlags {
    match a.flag
    case TargetVersion => acc.(targetVersion := a.value)
    case UpgradeContext => acc.(context := a.value)
    case Provider => acc.(provider := a.value)
    case ClusterName => acc.(clusterName := a.value)
    case Manifests => acc.(manifests := acc.manifests + [a.value])
    case HelmChart => acc.(helmCharts := acc.helmCharts + [a.value])
    case NamespaceAllowlist => acc.(namespaceLists := acc.namespaceLists + [a.value])
  }

  function FlagFor(text: string): Option<Flag> {
    if text == "--target-version" then Some(TargetVersion)
    else if text == "--upgrade-context" then Some(UpgradeContext)
    else if text == "--provider" then Some(Provider)
    else if text == "--cluster-name" then Some(ClusterName)
    else if text == "--manifests" then Some(Manifests)
    else if text == "--helm-chart" then Some(HelmChart)
    else if text == "--namespace-allowlist" then Some(NamespaceAllowlist)
    else None
  }

  /** A flag takes the next word as its value, whatever that word looks like. */
  function ReadFlags(words: seq<string>, acc: ScanFlags): Option<ScanFlags> {
    if words == [] then Some(acc)
    else if |words| == 1 then None
    else
      match FlagFor(words[0])
      case None => None
      case Some(f) => ReadFlags(words[2..], Apply(acc, Arg(f, words[1])))
  }

  function ApplyAll(acc: ScanFlags, args: seq<Arg>): ScanFlags {
    if args == [] then acc else Apply(ApplyAll(acc, args[..|args| - 1]), args[|args| - 1])
  }

  lemma FlagForReadsFlagText(f: Flag)
    ensures FlagFor(FlagText(f)) == Some(f)
  {
  }

  lemma {:induction false} SpreadIsApplied(args: seq<Arg>, rest: seq<string>, acc: ScanFlags)
    ensures ReadFlags(Spread(args, Verbatim) + rest, acc) == ReadFlags(rest, ApplyAll(acc, args))
  {
    if args == [] {
      assert Spread(args, Verbatim) + rest == rest;
    } else {
      var front, a := args[..|args| - 1], args[|args| - 1];
      var more := [FlagText(a.flag), a.value] + rest;
      assert Spread(args, Verbatim) + rest == Spread(front, Verbatim) + more;
      SpreadIsApplied(front, more, acc);
      FlagForReadsFlagText(a.flag);
      assert more[2..] == rest;
    }
  }

  lemma {:induction false} ApplyConcat(acc: ScanFlags, x: seq<Arg>, y: seq<Arg>)
    ensures ApplyAll(acc, x + y) == ApplyAll(ApplyAll(acc, x), y)
  {
    if y == [] {
      assert x + y == x;
    } else {
      ApplyConcat(acc, x, y[..|y| - 1]);
      assert (x + y)[..|x + y| - 1] == x + y[..|y| - 1];
    }
  }

  lemma ApplyWhen(acc: ScanFlags, given: bool, f: Flag, value: string)
    ensures ApplyAll(acc, When(given, f, value)) == if given then Apply(acc, Arg(f, value)) else acc
  {
    assert [Arg(f, value)][..0] == [];
    assert ApplyAll(acc, []) == acc;
  }

  lemma {:induction false} ApplyRepeated(acc: ScanFlags, values: seq<string>)
    ensures ApplyAll(acc, Repeated(Manifests, values)) == acc.(manifests := acc.manifests + values)
    ensures ApplyAll(acc, Repeated(HelmChart, values)) == acc.(helmCharts := acc.helmCharts + values)
  {
    if values == [] {
      assert acc.manifests + values == acc.manifests && acc.helmCharts + values == acc.helmCharts;
    } else {
      var front := values[..|values| - 1];
      ApplyRepeated(acc, front);
      assert Repeated(Manifests, values)[..|values| - 1] == Repeated(Manifests, front);
      assert Repeated(HelmChart, values)[..|values| - 1] == Repeated(HelmChart, front);
      assert values == front + [values[|values| - 1]];
    }
  }

  /** The flags of the plan as the scan will see them. */
  function FlagsOf(i: ScanInputs): ScanFlags {
    ScanFlags(i.targetVersion,
              if ContextOf(i) == "" || ContextOf(i) == UNSPECIFIED then UNSPECIFIED else Dashed(ContextOf(i)),
              i.provider, i.clusterName, i.manifestDirs, i.helmCharts,
              if i.namespaces == [] then [] else [Join(i.namespaces, ",")])
  }

  lemma SingleFlagsApplied(t: string, given: bool, context: string, p: string, c: string)
    ensures ApplyAll(ApplyAll(ApplyAll(ApplyAll(DEFAULT_FLAGS, When(true, TargetVersion, t)),
                                       When(given, UpgradeContext, context)),
                              When(p != "", Provider, p)), When(c != "", ClusterName, c))
            == DEFAULT_FLAGS.(targetVersion := t, context := if given then context else DEFAULT_FLAGS.context,
                              provider := p, clusterName := c)
  {
    var s := DEFAULT_FLAGS;
    ApplyWhen(s, true, TargetVersion, t);
    s := ApplyAll(s, When(true, TargetVersion, t));
    ApplyWhen(s, given, UpgradeContext, context);
    s := ApplyAll(s, When(given, UpgradeContext, context));
    ApplyWhen(s, p != "", Provider, p);
    s := ApplyAll(s, When(p != "", Provider, p));
    ApplyWhen(s, c != "", ClusterName, c);
  }

  lemma ListFlagsApplied(s: ScanFlags, m: seq<string>, h: seq<string>, given: bool, n: string)
    requires s.manifests == [] && s.helmCharts == [] && s.namespaceLists == []
    ensures ApplyAll(ApplyAll(ApplyAll(s, Repeated(Manifests, m)), Repeated(HelmChart, h)),
                     When(given, NamespaceAllowlist, n))
            == s.(manifests := m, helmCharts := h, namespaceLists := if given then [n] else [])
  {
    ApplyRepeated(s, m);
    assert [] + m == m && [] + h == h;
    var s1 := s.(manifests := m);
    ApplyRepeated(s1, h);
    ApplyWhen(s1.(helmCharts := h), given, NamespaceAllowlist, n);
  }

  lemma ArgsApplied(i: ScanInputs)
    ensures ApplyAll(DEFAULT_FLAGS, ArgsFor(i)) == FlagsOf(i)
  {
    var context := ContextOf(i);
    var given := context != "" && context != UNSPECIFIED;
    var n := Join(i.namespaces, ",");
    SingleFlagsApplied(i.targetVersion, given, Dashed(context), i.provider, i.clusterName);
    var s := DEFAULT_FLAGS.(targetVersion := i.targetVersion,
                            context := if given then Dashed(context) else DEFAULT_FLAGS.context,
                            provider := i.provider, clusterName := i.clusterName);
    ListFlagsApplied(s, i.manifestDirs, i.helmCharts, i.namespaces != [], n);
    ApplySeven(DEFAULT_FLAGS, When(true, TargetVersion, i.targetVersion), When(given, UpgradeContext, Dashed(context)),
               When(i.provider != "", Provider, i.provider), When(i.clusterName != "", ClusterName, i.clusterName),
               Repeated(Manifests, i.manifestDirs), Repeated(HelmChart, i.helmCharts),
               When(i.namespaces != [], NamespaceAllowlist, n));
  }

  lemma ApplySeven(s: ScanFlags, a: seq<Arg>, b: seq<Arg>, c: seq<Arg>, d: seq<Arg>, e: seq<Arg>, f: seq<Arg>,
                   g: seq<Arg>)
    ensures ApplyAll(s, a + b + c + d + e + f + g)
            == ApplyAll(ApplyAll(ApplyAll(ApplyAll(ApplyAll(ApplyAll(ApplyAll(s, a), b), c), d), e), f), g)
  {
    ApplyConcat(s, a, b);
    ApplyConcat(s, a + b, c);
    ApplyConcat(s, a + b + c, d);
    ApplyConcat(s, a + b + c + d, e);
    ApplyConcat(s, a + b + c + d + e, f);
    ApplyConcat(s, a + b + c + d + e + f, g);
  }

  /** Round trip: the shell splits the recommended command into words, the flag reader turns them back
      into the settings of the plan, for all values without NUL. */
  lemma CommandRestoresInputs(i: ScanInputs, command: string, words: seq<string>)
    requires InputsNulFree(i)
    requires command == Join(["kubepreflight", "scan"] + Spread(ArgsFor(i), ShellQuoteArg), " ")
    requires ReadWords(command) == Some(words)
    ensures |words| >= 2 && words[..2] == ["kubepreflight", "scan"]
    ensures ReadFlags(words[2..], DEFAULT_FLAGS) == Some(FlagsOf(i))
  {
    ArgsAreNulFree(i);
    CommandReadsBack(ArgsFor(i));
    var tail := Spread(ArgsFor(i), Verbatim);
    assert words[2..] == tail;
    SpreadIsApplied(ArgsFor(i), [], DEFAULT_FLAGS);
    assert tail + [] == tail;
    ArgsApplied(i);
  }

  /** How the flag library reads a comma list: nothing from an empty text, else one CSV record. None
      for the texts in which CSV finds more than commas: quotes and line ends. */
  function ReadCommaList(text: string): Option<seq<string>> {
    if text == "" then Some([])
    else if '"' in text || '\n' in text || '\r' in text then None
    else Some(Split(text, ','))
  }

  /** A namespace without a character that means something in a comma list. */
  predicate IsListable(n: string) {
    ',' !in n && '"' !in n && '\n' !in n && '\r' !in n
  }

  lemma {:induction false} JoinedListable(namespaces: seq<string>)
    requires namespaces != [] && forall n | n in namespaces :: IsListable(n)
    ensures var text := Join(namespaces, ",");
            '"' !in text && '\n' !in text && '\r' !in text && Split(text, ',') == namespaces
  {
    assert namespaces[0] in namespaces;
    if |namespaces| == 1 {
      SplitWithout(namespaces[0], ',');
    } else {
      JoinedListable(namespaces[1..]);
      SplitFirst(namespaces[0], ',', Join(namespaces[1..], ","));
      assert namespaces == [namespaces[0]] + namespaces[1..];
    }
  }

  /** The comma list reads back as the namespaces, none of which holds a special character, exactly
      when they are not one empty name. The tool admits only non-empty DNS labels. */
  lemma NamespacesReadBack(namespaces: seq<string>)
    requires forall n | n in namespaces :: IsListable(n)
    ensures ReadCommaList(Join(namespaces, ",")) == Some(namespaces) <==> namespaces != [""]
  {
    if namespaces != [] {
      JoinedListable(namespaces);
      if Join(namespaces, ",") == "" {
        assert Split("", ',') == [""];
      }
    }
  }

  // ---- the context flag ---------------------------------------------------------------------------------------------

  /** `findings.ParseUpgradeContextFlag`. */
  function ParseUpgradeContextFlag(value: string): Option<string> {
    if value == "" || value == "unspecified" then Some(UNSPECIFIED)
    else if value == "audit-only" then Some("audit_only")
    else if value == "control-plane-only" then Some("control_plane_only")
    else if value == "worker-rollout" then Some("worker_rollout")
    else if value == "full-platform-upgrade" then Some("full_platform_upgrade")
    else if value == "workload-restart" then Some("workload_restart")
    else None
  }

  lemma DashedShort()
    ensures Dashed("unspecified") == "unspecified" && Dashed("audit_only") == "audit-only"
  {
  }

  lemma DashedRollout()
    ensures Dashed("worker_rollout") == "worker-rollout" && Dashed("workload_restart") == "workload-restart"
  {
  }

  lemma DashedControlPlane()
    ensures Dashed("control_plane_only") == "control-plane-only"
  {
  }

  lemma DashedPlatform()
    ensures Dashed("full_platform_upgrade") == "full-platform-upgrade"
  {
  }

  /** Every context the tool knows survives the trip through its flag spelling. */
  lemma ContextReadsBack(value: string, context: string)
    requires ParseUpgradeContextFlag(value) == Some(context)
    ensures ParseUpgradeContextFlag(Dashed(context)) == Some(context)
  {
    DashedShort();
    DashedRollout();
    DashedControlPlane();
    DashedPlatform();
  }
}
