/**
 * The hand-written `.env` reader `loadEnv` of the maintenance scripts.
 * The text is split on line feeds; each line is split on `=`; a line whose
 * first piece and second piece are both non-empty stores the trimmed first
 * piece as key and the trimmed, quote-stripped second piece as value, later
 * lines overwriting earlier ones. Reading the file and exiting when it is
 * missing are left to the caller.
 */
module EnvLoader {
  import opened Wrappers
  import opened JsString

  /**
   * Assigning a string to the property `__proto__` of a plain object goes
   * through the prototype setter, which ignores non-object values, so this
   * key never becomes an entry.
   */
  const ProtoKey: string := "__proto__"

  datatype Entry = Entry(key: string, value: string)

  predicate IsQuote(c: char) {
    c == '"' || c == '\''
  }

  /**
   * `replace(/^["']|["']$/g, '')`: one quote character is removed from the
   * start and one from the end, each on its own, with no need for a pair.
   */
  function StripQuotes(s: string): (r: string)
    ensures |s| == 0 ==> r == s
    ensures |s| == 1 ==> r == (if IsQuote(s[0]) then [] else s)
    ensures |s| >= 2 ==> r == s[(if IsQuote(s[0]) then 1 else 0)..|s| - (if IsQuote(s[|s| - 1]) then 1 else 0)]
  {
    var t := if |s| > 0 && IsQuote(s[0]) then s[1..] else s;
    if |t| > 0 && IsQuote(t[|t| - 1]) then t[..|t| - 1] else t
  }

  /** A value without quote characters at its ends is left exactly as it is. */
  lemma {:induction false} StripQuotesUnquoted(s: string)
    requires s == [] || (!IsQuote(s[0]) && !IsQuote(s[|s| - 1]))
    ensures StripQuotes(s) == s
  {
  }

  /** Quotes need not match, and only one is removed from each end. */
  lemma {:induction false} StripQuotesExamples()
    ensures StripQuotes("\"abc'") == "abc"
    ensures StripQuotes("'abc") == "abc"
    ensures StripQuotes("\"\"abc\"\"") == "\"abc\""
    ensures StripQuotes("\"") == ""
    ensures StripQuotes("a\"b") == "a\"b"
  {
  }

  lemma {:induction false} StripQuotesKeepsAbsent(s: string, c: char)
    requires Lacks(s, c)
    ensures Lacks(StripQuotes(s), c)
  {
    var r := StripQuotes(s);
    var a := if |s| > 0 && IsQuote(s[0]) then 1 else 0;
    assert forall k :: 0 <= k < |r| ==> r[k] == s[a + k];
  }

  /** The entry one line contributes, if any. */
  function ParseLine(line: string): (e: Option<Entry>)
    ensures Lacks(line, '=') ==> e == None
    ensures e.Some? ==> Lacks(e.value.key, '=') && Lacks(e.value.value, '=')
    ensures e.Some? ==> NoOuterWhitespace(e.value.key)
  {
    var parts := Split(line, '=');
    if |parts| >= 2 && parts[0] != [] && parts[1] != [] then
      TrimKeepsAbsent(parts[0], '=');
      TrimKeepsAbsent(parts[1], '=');
      StripQuotesKeepsAbsent(Trim(parts[1]), '=');
      TrimSpec(parts[0]);
      Some(Entry(Trim(parts[0]), StripQuotes(Trim(parts[1]))))
    else
      None
  }

  /**
   * A line is a key part, an `=`, a value segment and a rest that is empty
   * or starts at the second `=`. It yields an entry exactly when key part and
   * segment are both non-empty (before trimming), and the rest is ignored.
   */
  lemma {:induction false} ParseLineShape(key: string, seg: string, rest: string)
    requires Lacks(key, '=') && Lacks(seg, '=')
    requires rest == [] || rest[0] == '='
    ensures ParseLine(key + ['='] + seg + rest)
         == if key != [] && seg != [] then Some(Entry(Trim(key), StripQuotes(Trim(seg)))) else None
  {
    var line := key + ['='] + seg + rest;
    assert line == key + ['='] + (seg + rest);
    SplitFirst(key, seg + rest, '=');
    SplitHead(seg, rest, '=');
  }

  /** Everything from the second `=` on is dropped from the value. */
  lemma {:induction false} ValueTruncatedAtSecondEquals(key: string, seg: string, tail: string)
    requires Lacks(key, '=') && Lacks(seg, '=')
    ensures ParseLine(key + ['='] + seg + ['='] + tail) == ParseLine(key + ['='] + seg)
  {
    ParseLineShape(key, seg, ['='] + tail);
    assert key + ['='] + seg + ['='] + tail == key + ['='] + seg + (['='] + tail);
    ParseLineShape(key, seg, []);
    assert key + ['='] + seg + [] == key + ['='] + seg;
  }

  /** A key made only of blanks passes the emptiness test and is stored as the empty key. */
  lemma {:induction false} BlankKeyIsEmptyKey(key: string, seg: string)
    requires Lacks(key, '=') && Lacks(seg, '=')
    requires key != [] && AllWhitespace(key) && seg != []
    ensures ParseLine(key + ['='] + seg) == Some(Entry([], StripQuotes(Trim(seg))))
  {
    ParseLineShape(key, seg, []);
    assert key + ['='] + seg + [] == key + ['='] + seg;
    TrimEmptyIff(key);
  }

  /** A blank value passes the emptiness test and is stored as the empty value. */
  lemma {:induction false} BlankValueIsEmptyValue(key: string, seg: string)
    requires Lacks(key, '=') && Lacks(seg, '=')
    requires key != [] && seg != [] && AllWhitespace(seg)
    ensures ParseLine(key + ['='] + seg) == Some(Entry(Trim(key), []))
  {
    ParseLineShape(key, seg, []);
    assert key + ['='] + seg + [] == key + ['='] + seg;
    TrimEmptyIff(seg);
  }

  /** The entry of each line, in file order. */
  function Entries(lines: seq<string>): (es: seq<Option<Entry>>)
    ensures |es| == |lines|
    ensures forall i :: 0 <= i < |lines| ==> es[i] == ParseLine(lines[i])
  {
    if lines == [] then [] else
      var rest := Entries(lines[1..]);
      var es := [ParseLine(lines[0])] + rest;
      assert forall i :: 1 <= i < |lines| ==> es[i] == rest[i - 1] && lines[i] == lines[1..][i - 1];
      es
  }

  /** An entry for key `k`. */
  predicate DefinesKey(e: Option<Entry>, k: string) {
    e.Some? && e.value.key == k
  }

  /** `env[key.trim()] = value` for one line's entry, if it has one. */
  function Assign(env: map<string, string>, e: Option<Entry>): (env': map<string, string>)
    ensures forall k :: k in env' <==> k in env || (k != ProtoKey && DefinesKey(e, k))
    ensures forall k :: k in env' && !DefinesKey(e, k) ==> env'[k] == env[k]
    ensures forall k :: k in env' && k != ProtoKey && DefinesKey(e, k) ==> env'[k] == e.value.value
  {
    match e
    case None => env
    case Some(e) => if e.key == ProtoKey then env else env[e.key := e.value]
  }

  /** The object built by running the per-line assignment over the entries in order. */
  function Collect(es: seq<Option<Entry>>): (env: map<string, string>)
    ensures ProtoKey !in env
  {
    if es == [] then map[] else Assign(Collect(es[..|es| - 1]), es[|es| - 1])
  }

  /** `loadEnv` applied to the contents of the `.env` file. */
  function LoadEnv(text: string): (env: map<string, string>)
    ensures ProtoKey !in env
  {
    Collect(Entries(Split(text, '\n')))
  }

  /** No stored key or value contains `=` or a line feed. */
  lemma {:induction false} LoadEnvClean(text: string, k: string)
    requires k in LoadEnv(text)
    ensures Lacks(k, '=') && Lacks(LoadEnv(text)[k], '=') && Lacks(k, '\n') && Lacks(LoadEnv(text)[k], '\n')
  {
    var lines := Split(text, '\n');
    var es := Entries(lines);
    CollectFromLines(es, k);
    var i :| 0 <= i < |es| && DefinesKey(es[i], k) && LastDefinition(es, i, k);
    CollectLastWins(es, i, k);
    LineEntryWithin(lines[i], '\n');
  }

  /** No entry after index `i` is for `k`. */
  predicate LastDefinition(es: seq<Option<Entry>>, i: nat, k: string)
    requires i < |es|
  {
    forall j :: i < j < |es| ==> !DefinesKey(es[j], k)
  }

  /** A key is present exactly when some line defines it and it is not the prototype key. */
  lemma {:induction false} CollectDomain(es: seq<Option<Entry>>, k: string)
    ensures k in Collect(es) <==> k != ProtoKey && exists i :: 0 <= i < |es| && DefinesKey(es[i], k)
  {
    if es != [] {
      var init := es[..|es| - 1];
      CollectDomain(init, k);
      if exists i :: 0 <= i < |init| && DefinesKey(init[i], k) {
        var i :| 0 <= i < |init| && DefinesKey(init[i], k);
        assert es[i] == init[i];
      }
      if exists i :: 0 <= i < |es| && DefinesKey(es[i], k) {
        var i :| 0 <= i < |es| && DefinesKey(es[i], k);
        if i < |init| {
          assert init[i] == es[i];
        }
      }
    }
  }

  /** Each stored key comes from a line that is the last one defining that key. */
  lemma {:induction false} CollectFromLines(es: seq<Option<Entry>>, k: string)
    requires k in Collect(es)
    ensures exists i :: 0 <= i < |es| && DefinesKey(es[i], k) && LastDefinition(es, i, k)
  {
    var init := es[..|es| - 1];
    var last := |es| - 1;
    if DefinesKey(es[last], k) {
      assert LastDefinition(es, last, k);
    } else {
      CollectFromLines(init, k);
      var i :| 0 <= i < |init| && DefinesKey(init[i], k) && LastDefinition(init, i, k);
      assert es[i] == init[i];
      forall j | i < j < |es|
        ensures !DefinesKey(es[j], k)
      {
        if j < last {
          assert es[j] == init[j];
        }
      }
      assert LastDefinition(es, i, k);
    }
  }

  /** The value stored for a key is the one from the last line that defines it. */
  lemma {:induction false} CollectLastWins(es: seq<Option<Entry>>, i: nat, k: string)
    requires i < |es| && DefinesKey(es[i], k) && LastDefinition(es, i, k)
    requires k != ProtoKey
    ensures k in Collect(es) && Collect(es)[k] == es[i].value.value
  {
    var init := es[..|es| - 1];
    var last := |es| - 1;
    if i < last {
      assert init[i] == es[i];
      forall j | i < j < |init|
        ensures !DefinesKey(init[j], k)
      {
        assert init[j] == es[j];
      }
      CollectLastWins(init, i, k);
    }
  }

  /** The entry of a line never contains a character the line does not contain. */
  lemma {:induction false} LineEntryWithin(line: string, c: char)
    requires Lacks(line, c)
    ensures ParseLine(line).Some? ==> Lacks(ParseLine(line).value.key, c) && Lacks(ParseLine(line).value.value, c)
  {
    var parts := Split(line, '=');
    if |parts| >= 2 {
      assert line == Join(parts, '=');
      JoinKeepsAbsent(parts, '=', c);
      TrimKeepsAbsent(parts[0], c);
      TrimKeepsAbsent(parts[1], c);
      StripQuotesKeepsAbsent(Trim(parts[1]), c);
    }
  }

  lemma {:induction false} JoinKeepsAbsent(parts: seq<string>, sep: char, c: char)
    requires |parts| >= 1 && Lacks(Join(parts, sep), c)
    ensures forall k :: 0 <= k < |parts| ==> Lacks(parts[k], c)
  {
    if |parts| > 1 {
      var s := Join(parts, sep);
      var rest := Join(parts[1..], sep);
      assert s == parts[0] + [sep] + rest;
      assert forall k :: 0 <= k < |parts[0]| ==> parts[0][k] == s[k];
      assert forall k :: 0 <= k < |rest| ==> rest[k] == s[|parts[0]| + 1 + k];
      JoinKeepsAbsent(parts[1..], sep, c);
      forall k | 1 <= k < |parts|
        ensures Lacks(parts[k], c)
      {
        assert parts[k] == parts[1..][k - 1];
      }
    }
  }

  /**
   * Over a whole file: a key is present exactly when some line defines it
   * (and it is not the prototype key), and its value is that of the last
   * line defining it.
   */
  lemma {:induction false} LoadEnvLastDefinitionWins(lines: seq<string>, i: nat, k: string)
    requires forall j :: 0 <= j < |lines| ==> Lacks(lines[j], '\n')
    requires i < |lines| && DefinesKey(ParseLine(lines[i]), k) && k != ProtoKey
    requires forall j :: i < j < |lines| ==> !DefinesKey(ParseLine(lines[j]), k)
    ensures var env := LoadEnv(Join(lines, '\n'));
      k in env && env[k] == ParseLine(lines[i]).value.value
  {
    SplitJoin(lines, '\n');
    var es := Entries(lines);
    assert LastDefinition(es, i, k);
    CollectLastWins(es, i, k);
  }

  /** The loaded keys are exactly the keys, other than `__proto__`, that some line defines. */
  lemma {:induction false} LoadEnvDomain(text: string, k: string)
    ensures k in LoadEnv(text) <==>
      k != ProtoKey && exists i :: 0 <= i < |Split(text, '\n')| && DefinesKey(ParseLine(Split(text, '\n')[i]), k)
  {
    var lines := Split(text, '\n');
    if k in LoadEnv(text) {
      LoadedKeyHasLine(text, k);
    }
    if k != ProtoKey && exists i :: 0 <= i < |lines| && DefinesKey(ParseLine(lines[i]), k) {
      var i :| 0 <= i < |lines| && DefinesKey(ParseLine(lines[i]), k);
      LineKeyIsLoaded(text, k, i);
    }
  }

  /** Every loaded key comes from some line of the file. */
  lemma {:induction false} LoadedKeyHasLine(text: string, k: string)
    requires k in LoadEnv(text)
    ensures k != ProtoKey && exists i :: 0 <= i < |Split(text, '\n')| && DefinesKey(ParseLine(Split(text, '\n')[i]), k)
  {
    var lines := Split(text, '\n');
    var es := Entries(lines);
    assert LoadEnv(text) == Collect(es);
    CollectDomain(es, k);
    var i :| 0 <= i < |es| && DefinesKey(es[i], k);
    assert es[i] == ParseLine(lines[i]);
  }

  /** The key of any line's entry, other than `__proto__`, is loaded. */
  lemma {:induction false} LineKeyIsLoaded(text: string, k: string, i: int)
    requires k != ProtoKey && 0 <= i < |Split(text, '\n')| && DefinesKey(ParseLine(Split(text, '\n')[i]), k)
    ensures k in LoadEnv(text)
  {
    var lines := Split(text, '\n');
    var es := Entries(lines);
    assert LoadEnv(text) == Collect(es);
    CollectDomain(es, k);
    assert es[i] == ParseLine(lines[i]);
  }

  /**
   * A line appended at the end of the file overrides whatever earlier lines
   * set for its key and leaves every other key alone.
   */
  lemma {:induction false} LaterLineWins(text: string, line: string)
    requires Lacks(line, '\n')
    requires ParseLine(line).Some? && ParseLine(line).value.key != ProtoKey
    ensures LoadEnv(text + ['\n'] + line) == LoadEnv(text)[ParseLine(line).value.key := ParseLine(line).value.value]
  {
    AppendedLine(text, line);
  }

  /** A line that yields no entry, appended at the end, changes nothing. */
  lemma {:induction false} IgnoredLineChangesNothing(text: string, line: string)
    requires Lacks(line, '\n')
    requires ParseLine(line).None? || ParseLine(line).value.key == ProtoKey
    ensures LoadEnv(text + ['\n'] + line) == LoadEnv(text)
  {
    AppendedLine(text, line);
  }

  lemma {:induction false} AppendedLine(text: string, line: string)
    requires Lacks(line, '\n')
    ensures LoadEnv(text + ['\n'] + line) == Assign(LoadEnv(text), ParseLine(line))
  {
    var lines := Split(text, '\n');
    SplitSnoc(text, line, '\n');
    EntriesSnoc(lines, line);
    CollectSnoc(Entries(lines), ParseLine(line));
  }

  lemma {:induction false} EntriesSnoc(lines: seq<string>, line: string)
    ensures Entries(lines + [line]) == Entries(lines) + [ParseLine(line)]
  {
    assert |Entries(lines + [line])| == |lines| + 1;
    assert forall i :: 0 <= i < |lines| ==> (lines + [line])[i] == lines[i];
  }

  lemma {:induction false} CollectSnoc(es: seq<Option<Entry>>, e: Option<Entry>)
    ensures Collect(es + [e]) == Assign(Collect(es), e)
  {
    assert (es + [e])[..|es|] == es;
  }
}
