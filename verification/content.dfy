/**
 * The text lookups of ContentLoader (content-loader.js): a dotted path looked up in the loaded
 * content configuration with a default, `{name}` placeholders filled in from a list of
 * variables, and a subject's display name with its chain of fallbacks.
 *
 * The configuration is a JSON value; before it is loaded it is `null`.
 */
module Content {
  import opened Wrappers
  import opened GameData

  datatype Json =
    | JNull
    | JBool(b: bool)
    | JNum(n: real)
    | JStr(s: string)
    | JArr(items: seq<Json>)
    | JObj(fields: map<string, Json>)

  /** JavaScript truthiness of a JSON value: null, false, 0 and the empty string are falsy. */
  predicate Truthy(v: Json)
  {
    match v
    case JNull => false
    case JBool(b) => b
    case JNum(n) => n != 0.0
    case JStr(s) => |s| > 0
    case _ => true
  }

  // ---------------------------------------------------------------- split and join

  /**
   * `s.split(sep)` for a non-empty separator: the pieces between the leftmost non-overlapping
   * occurrences of `sep`, empty pieces included.
   */
  function SplitOn(s: string, sep: string): (r: seq<string>)
    requires |sep| > 0
    ensures |r| > 0
    decreases |s|
  {
    if |s| < |sep| then [s]
    else if s[..|sep|] == sep then [""] + SplitOn(s[|sep|..], sep)
    else
      var rest := SplitOn(s[1..], sep);
      [[s[0]] + rest[0]] + rest[1..]
  }

  /** `pieces.join(sep)`. */
  function Join(pieces: seq<string>, sep: string): string
    requires |pieces| > 0
    decreases |pieces|
  {
    if |pieces| == 1 then pieces[0] else pieces[0] + sep + Join(pieces[1..], sep)
  }

  lemma JoinConsHead(c: string, rest: seq<string>, sep: string)
    requires |rest| > 0
    ensures Join([c + rest[0]] + rest[1..], sep) == c + Join(rest, sep)
  {
    var pieces := [c + rest[0]] + rest[1..];
    assert pieces[1..] == rest[1..];
  }

  /** Joining the pieces of a split with the same separator gives the string back. */
  lemma {:induction false} JoinSplit(s: string, sep: string)
    requires |sep| > 0
    ensures Join(SplitOn(s, sep), sep) == s
    decreases |s|
  {
    if |s| < |sep| {
    } else if s[..|sep|] == sep {
      JoinSplit(s[|sep|..], sep);
      JoinAfterEmpty(SplitOn(s[|sep|..], sep), sep);
      assert s == s[..|sep|] + s[|sep|..];
    } else {
      JoinSplit(s[1..], sep);
      JoinConsHead([s[0]], SplitOn(s[1..], sep), sep);
      assert s == [s[0]] + s[1..];
    }
  }

  lemma JoinAfterEmpty(rest: seq<string>, sep: string)
    requires |rest| > 0
    ensures Join([""] + rest, sep) == sep + Join(rest, sep)
  {
    assert ([""] + rest)[1..] == rest;
  }

  /** A string without the separator splits into itself alone. */
  lemma {:induction false} SplitWithoutDot(s: string)
    requires '.' !in s
    ensures SplitOn(s, ".") == [s]
    decreases |s|
  {
    if |s| >= 1 {
      assert s[..1] == [s[0]];
      SplitWithoutDot(s[1..]);
      assert [s[0]] + s[1..] == s;
    }
  }

  /** A dot-free key followed by a dot splits off as the first piece. */
  lemma {:induction false} SplitAfterKey(k: string, t: string)
    requires '.' !in k
    ensures SplitOn(k + "." + t, ".") == [k] + SplitOn(t, ".")
    decreases |k|
  {
    var s := k + "." + t;
    if |k| == 0 {
      assert s[..1] == "." && s[1..] == t;
    } else {
      assert s[..1] == [k[0]];
      assert s[1..] == k[1..] + "." + t;
      SplitAfterKey(k[1..], t);
      assert [s[0]] + k[1..] == k;
    }
  }

  /** Splitting a dot-joined list of dot-free keys gives the keys back. */
  lemma {:induction false} SplitJoin(keys: seq<string>)
    requires |keys| > 0 && forall i :: 0 <= i < |keys| ==> '.' !in keys[i]
    ensures SplitOn(Join(keys, "."), ".") == keys
    decreases |keys|
  {
    if |keys| == 1 {
      SplitWithoutDot(keys[0]);
    } else {
      SplitJoin(keys[1..]);
      SplitAfterKey(keys[0], Join(keys[1..], "."));
      assert [keys[0]] + keys[1..] == keys;
    }
  }

  /** No piece of a split on '.' contains a dot. */
  lemma {:induction false} SplitPiecesDotFree(s: string)
    ensures forall i :: 0 <= i < |SplitOn(s, ".")| ==> '.' !in SplitOn(s, ".")[i]
    decreases |s|
  {
    if |s| >= 1 {
      var rest := SplitOn(s[1..], ".");
      SplitPiecesDotFree(s[1..]);
      assert s[..1] == [s[0]];
      if s[0] == '.' {
        var r := SplitOn(s, ".");
        assert s[..1] == ".";
        assert r == [""] + rest;
        forall i | 0 <= i < |r|
          ensures '.' !in r[i]
        {
          if i > 0 {
            assert r[i] == rest[i - 1];
          }
        }
      } else {
        var r := SplitOn(s, ".");
        assert r == [[s[0]] + rest[0]] + rest[1..];
        assert forall i :: 1 <= i < |r| ==> r[i] == rest[i];
      }
    }
  }

  // ---------------------------------------------------------------- getUIText

  /** `v?.[key]` for a value that is not undefined: an object's member, undefined otherwise. */
  function Member(v: Json, key: string): (r: Option<Json>)
    ensures r.Some? <==> v.JObj? && key in v.fields
  {
    match v
    case JObj(fields) => if key in fields then Some(fields[key]) else None
    case _ => None
  }

  /** The value found by following `keys` from `v`, or None (undefined) as soon as one is missing. */
  function Walk(v: Json, keys: seq<string>): Option<Json>
    decreases |keys|
  {
    if |keys| == 0 then Some(v)
    else
      match Member(v, keys[0])
      case None => None
      case Some(w) => Walk(w, keys[1..])
  }

  /** Following a path in two parts is following the second part from where the first ends. */
  lemma {:induction false} WalkAppend(v: Json, a: seq<string>, b: seq<string>)
    ensures Walk(v, a + b) == match Walk(v, a) case None => None case Some(w) => Walk(w, b)
    decreases |a|
  {
    if |a| > 0 {
      assert (a + b)[0] == a[0];
      assert (a + b)[1..] == a[1..] + b;
      match Member(v, a[0])
      case None =>
      case Some(w) => WalkAppend(w, a[1..], b);
    } else {
      assert a + b == b;
    }
  }

  /**
   * getUIText: the value at the dotted path when every key along it is present and the value
   * found is truthy; the default otherwise.
   */
  function UIText(config: Json, path: string, defaultValue: Json): (r: Json)
    ensures r == defaultValue || (Walk(config, SplitOn(path, ".")) == Some(r) && Truthy(r))
  {
    match Walk(config, SplitOn(path, "."))
    case None => defaultValue
    case Some(v) => if Truthy(v) then v else defaultValue
  }

  /**
   * getUIText's loop: each key in turn, returning the default as soon as a key is missing, then
   * the value found unless it is falsy.
   */
  method GetUIText(config: Json, path: string, defaultValue: Json) returns (r: Json)
    ensures r == UIText(config, path, defaultValue)
  {
    var keys := SplitOn(path, ".");
    var result := config;
    for i := 0 to |keys|
      invariant Walk(config, keys) == Walk(result, keys[i..])
    {
      assert keys[i..][1..] == keys[i + 1..];
      var next := Member(result, keys[i]);
      if next.None? {
        return defaultValue;
      }
      result := next.value;
    }
    assert keys[|keys|..] == [];
    r := if Truthy(result) then result else defaultValue;
  }

  /**
   * A path written as dot-free keys joined by dots finds what following those keys finds: the
   * value when it is truthy, the default when it is falsy or some key is missing.
   */
  lemma UITextOfKeys(config: Json, keys: seq<string>, defaultValue: Json)
    requires |keys| > 0 && forall i :: 0 <= i < |keys| ==> '.' !in keys[i]
    ensures var found := Walk(config, keys);
      UIText(config, Join(keys, "."), defaultValue) ==
        if found.Some? && Truthy(found.value) then found.value else defaultValue
  {
    SplitJoin(keys);
  }

  /** A path whose leading keys are already missing gives the default, whatever follows. */
  lemma UITextMissingPrefix(config: Json, path: string, n: nat, defaultValue: Json)
    requires n <= |SplitOn(path, ".")| && Walk(config, SplitOn(path, ".")[..n]).None?
    ensures UIText(config, path, defaultValue) == defaultValue
  {
    var keys := SplitOn(path, ".");
    assert keys == keys[..n] + keys[n..];
    WalkAppend(config, keys[..n], keys[n..]);
  }

  /** Before the configuration is loaded (it is null), every lookup gives the default. */
  lemma UITextUnloaded(path: string, defaultValue: Json)
    ensures UIText(JNull, path, defaultValue) == defaultValue
  {
    UITextMissingPrefix(JNull, path, 1, defaultValue);
  }

  // ---------------------------------------------------------------- format

  /** The text a variable named `key` replaces: `{key}`. */
  function Placeholder(key: string): (p: string)
    ensures |p| == |key| + 2 && p[0] == '{' && p[|p| - 1] == '}'
  {
    "{" + key + "}"
  }

  /**
   * `s.replace(new RegExp(pat, 'g'), rep)` for a pattern matched literally: every leftmost
   * non-overlapping occurrence of `pat` replaced by `rep`.
   */
  function ReplaceAll(s: string, pat: string, rep: string): string
    requires |pat| > 0
    decreases |s|
  {
    if |s| < |pat| then s
    else if s[..|pat|] == pat then rep + ReplaceAll(s[|pat|..], pat, rep)
    else [s[0]] + ReplaceAll(s[1..], pat, rep)
  }

  /** Replacing every occurrence is splitting on the pattern and joining with the replacement. */
  lemma {:induction false} ReplaceAllIsSplitJoin(s: string, pat: string, rep: string)
    requires |pat| > 0
    ensures ReplaceAll(s, pat, rep) == Join(SplitOn(s, pat), rep)
    decreases |s|
  {
    if |s| < |pat| {
    } else if s[..|pat|] == pat {
      ReplaceAllIsSplitJoin(s[|pat|..], pat, rep);
      var pieces := [""] + SplitOn(s[|pat|..], pat);
      assert pieces[1..] == SplitOn(s[|pat|..], pat);
    } else {
      ReplaceAllIsSplitJoin(s[1..], pat, rep);
      JoinConsHead([s[0]], SplitOn(s[1..], pat), rep);
    }
  }

  /** Replacing a pattern by itself leaves the text as it was. */
  lemma ReplaceAllSelf(s: string, pat: string)
    requires |pat| > 0
    ensures ReplaceAll(s, pat, pat) == s
  {
    ReplaceAllIsSplitJoin(s, pat, pat);
    JoinSplit(s, pat);
  }

  /** A text in which the pattern's first character never appears is left as it was. */
  lemma {:induction false} ReplaceAllAbsent(s: string, pat: string, rep: string)
    requires |pat| > 0 && pat[0] !in s
    ensures ReplaceAll(s, pat, rep) == s
    decreases |s|
  {
    if |s| >= |pat| {
      assert s[..|pat|][0] == s[0];
      ReplaceAllAbsent(s[1..], pat, rep);
      assert [s[0]] + s[1..] == s;
    }
  }

  /** The variables' replacements applied one after another, in entry order. */
  function Substitute(text: string, variables: seq<(string, string)>): string
    decreases |variables|
  {
    if |variables| == 0 then text
    else Substitute(ReplaceAll(text, Placeholder(variables[0].0), variables[0].1), variables[1..])
  }

  /**
   * format: an empty text gives ''; otherwise every variable's placeholder is replaced by its
   * value, one variable after another in entry order.
   */
  method Format(text: string, variables: seq<(string, string)>) returns (r: string)
    ensures r == if |text| == 0 then "" else Substitute(text, variables)
  {
    if |text| == 0 {
      return "";
    }
    r := text;
    var k := 0;
    while k < |variables|
      invariant 0 <= k <= |variables|
      invariant Substitute(r, variables[k..]) == Substitute(text, variables)
    {
      assert variables[k..][1..] == variables[k + 1..];
      r := ReplaceAll(r, Placeholder(variables[k].0), variables[k].1);
      k := k + 1;
    }
    assert variables[k..] == [];
  }

  /** Formatting with some variables and then more is formatting with all of them in that order. */
  lemma {:induction false} SubstituteAppend(text: string, a: seq<(string, string)>, b: seq<(string, string)>)
    ensures Substitute(text, a + b) == Substitute(Substitute(text, a), b)
    decreases |a|
  {
    if |a| > 0 {
      var t := ReplaceAll(text, Placeholder(a[0].0), a[0].1);
      assert (a + b)[0] == a[0];
      assert (a + b)[1..] == a[1..] + b;
      assert Substitute(text, a + b) == Substitute(t, a[1..] + b);
      SubstituteAppend(t, a[1..], b);
    } else {
      assert a + b == b;
    }
  }

  /** A text without any '{' has no placeholder, and formatting gives it back unchanged. */
  lemma {:induction false} SubstituteWithoutBraces(text: string, variables: seq<(string, string)>)
    requires '{' !in text
    ensures Substitute(text, variables) == text
    decreases |variables|
  {
    if |variables| > 0 {
      ReplaceAllAbsent(text, Placeholder(variables[0].0), variables[0].1);
      SubstituteWithoutBraces(text, variables[1..]);
    }
  }

  /** One variable: its placeholder is replaced exactly where the text splits on it. */
  lemma FormatOneVariable(text: string, key: string, value: string)
    requires |text| > 0
    ensures Substitute(text, [(key, value)]) == Join(SplitOn(text, Placeholder(key)), value)
  {
    ReplaceAllIsSplitJoin(text, Placeholder(key), value);
  }

  // ---------------------------------------------------------------- getSubjectName

  /**
   * StringUtils.camelToChinese: the Chinese label of a subject, ability or status key, or the
   * key itself for any other.
   */
  function CamelToChinese(camelCase: string): (r: string)
    ensures SubjectOfKey(camelCase).Some? ==> r == Name(SubjectOfKey(camelCase).value)
    ensures r != camelCase ==> camelCase in CamelLabels
  {
    if camelCase in CamelLabels then CamelLabels[camelCase] else camelCase
  }

  const CamelLabels: map<string, string> := map[
    "chinese" := "语文", "math" := "数学", "english" := "英语", "politics" := "政治",
    "history" := "历史", "physics" := "物理", "chemistry" := "化学", "biology" := "生物",
    "geography" := "地理", "sports" := "体育",
    "memory" := "记忆力", "comprehension" := "理解力", "focus" := "专注力", "mindset" := "考试心态",
    "physical" := "体力", "energy" := "精力", "stress" := "压力值"]

  /**
   * getSubjectName: the name the configuration gives the subject if it is truthy, else the name
   * in SUBJECTS, else the key's camelToChinese label.
   */
  function SubjectName(config: Json, subjectKey: string): (r: Json)
  {
    var configured := Walk(config, ["subjects", subjectKey, "name"]);
    if configured.Some? && Truthy(configured.value) then configured.value
    else match SubjectOfKey(subjectKey)
      case Some(s) => JStr(Name(s))
      case None => JStr(CamelToChinese(subjectKey))
  }

  /**
   * The fallback chain: a truthy configured name wins; without one, a subject key gets its
   * SUBJECTS name, which its camelToChinese label agrees with, and any other key its label.
   */
  lemma SubjectNameFallbacks(config: Json, subjectKey: string)
    ensures var configured := Walk(config, ["subjects", subjectKey, "name"]);
      var r := SubjectName(config, subjectKey);
      && (configured.Some? && Truthy(configured.value) ==> r == configured.value)
      && (!(configured.Some? && Truthy(configured.value)) ==> r == JStr(CamelToChinese(subjectKey)))
      && (SubjectOfKey(subjectKey).Some? && !(configured.Some? && Truthy(configured.value)) ==>
            r == JStr(Name(SubjectOfKey(subjectKey).value)))
  {
  }

  /** getSubjectName never gives a falsy name, except the empty key's own label without a configured name. */
  lemma SubjectNameTruthy(config: Json, subjectKey: string)
    requires |subjectKey| > 0
    ensures Truthy(SubjectName(config, subjectKey))
  {
  }

  /** Every subject's label is its SUBJECTS name, and the unloaded configuration falls back to it. */
  lemma SubjectLabels(s: Subject)
    ensures CamelToChinese(Key(s)) == Name(s)
    ensures SubjectName(JNull, Key(s)) == JStr(Name(s))
  {
    KeyRoundTrip(s);
  }
}
