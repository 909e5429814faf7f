/** The `$KEY$` template engine (src/template.rs).

    `FormatTemplate` is the in-place scanner of the program: a mutable output
    buffer, an index, and an inner loop that looks for the closing '$'.
    `Substitute` is an independent, recursive statement of what the scan
    computes, and the lemmas below state the engine's promises about it. */
module Template {
  import opened Results
  import opened Text

  /** Puts `p` in front of a successful result; an error passes through. */
  function Prepend(p: string, r: Result<string, Failure>): Result<string, Failure>
  {
    match r
    case Ok(s) => Ok(p + s)
    case Err(f) => Err(f)
  }

  /** The result of substituting `values` into `s`, read left to right:
      ordinary characters are copied, a '$' with a later '$' is a placeholder
      whose key is looked up (a missing key is an error), and a '$' with no
      later '$' leaves the rest of the text as it is. The value of a
      placeholder is emitted as it is and never scanned again. */
  function Substitute(s: string, values: map<string, string>): Result<string, Failure>
    decreases |s|
  {
    if s == [] then Ok([])
    else if s[0] != '$' then Prepend([s[0]], Substitute(s[1..], values))
    else
      match IndexOf(s, '$', 1)
      case None => Ok(s)
      case Some(e) =>
        if s[1..e] in values then Prepend(values[s[1..e]], Substitute(s[e + 1..], values))
        else Err(MissingKey(s[1..e]))
  }

  /** The keys of the placeholders of `s`, in the order the scan meets them.
      They depend on the template only, because inserted values are skipped. */
  function Placeholders(s: string): seq<string>
    decreases |s|
  {
    if s == [] then []
    else if s[0] != '$' then Placeholders(s[1..])
    else
      match IndexOf(s, '$', 1)
      case None => []
      case Some(e) => [s[1..e]] + Placeholders(s[e + 1..])
  }

  lemma PrependAppend(a: string, b: string, r: Result<string, Failure>)
    ensures Prepend(a, Prepend(b, r)) == Prepend(a + b, r)
  {
    if r.Ok? {
      assert a + (b + r.value) == (a + b) + r.value;
    }
  }

  lemma PrependEmpty(r: Result<string, Failure>)
    ensures Prepend([], r) == r
  {
    if r.Ok? {
      assert [] + r.value == r.value;
    }
  }

  /** A text that starts with '$' and has its next '$' at `e` is one
      placeholder: its key is the text between the two. */
  lemma SubstitutePlaceholder(s: string, e: nat, values: map<string, string>)
    requires 0 < e < |s| && s[0] == '$' && s[e] == '$'
    requires forall k :: 0 < k < e ==> s[k] != '$'
    ensures Substitute(s, values) ==
      if s[1..e] in values then Prepend(values[s[1..e]], Substitute(s[e + 1..], values))
      else Err(MissingKey(s[1..e]))
    ensures Placeholders(s) == [s[1..e]] + Placeholders(s[e + 1..])
  {
    IndexOfMeaning(s, '$', 1);
    assert IndexOf(s, '$', 1) == Some(e);
  }

  /** A '$' with no later '$' ends the scan and leaves the text unchanged. */
  lemma SubstituteUnclosed(s: string, values: map<string, string>)
    requires |s| > 0 && s[0] == '$'
    requires forall k :: 0 < k < |s| ==> s[k] != '$'
    ensures Substitute(s, values) == Ok(s)
    ensures Placeholders(s) == []
  {
    IndexOfMeaning(s, '$', 1);
    assert IndexOf(s, '$', 1) == None;
  }

  /** One step of the scan over an ordinary character. */
  lemma ScanPlain(output: string, index: nat, values: map<string, string>)
    requires index < |output| && output[index] != '$'
    ensures Prepend(output[..index], Substitute(output[index..], values)) ==
            Prepend(output[..index + 1], Substitute(output[index + 1..], values))
  {
    assert output[..index + 1] == output[..index] + [output[index]];
    PrependAppend(output[..index], [output[index]], Substitute(output[index + 1..], values));
  }

  /** One step of the scan over a placeholder from `start` to `e`: a missing
      key fails, and otherwise the buffer with the span replaced by the value
      has the same substitution when the scan resumes after the value. */
  lemma ScanPlaceholder(output: string, start: nat, e: nat, values: map<string, string>)
    requires start < e < |output| && output[start] == '$' && output[e] == '$'
    requires forall k :: start < k < e ==> output[k] != '$'
    ensures output[start + 1..e] !in values ==>
      Prepend(output[..start], Substitute(output[start..], values)) == Err(MissingKey(output[start + 1..e]))
    ensures output[start + 1..e] in values ==>
      var value := values[output[start + 1..e]];
      var replaced := output[..start] + value + output[e + 1..];
      Prepend(output[..start], Substitute(output[start..], values)) ==
      Prepend(replaced[..start + |value|], Substitute(replaced[start + |value|..], values))
  {
    var s := output[start..];
    assert s[1..e - start] == output[start + 1..e];
    assert s[e - start + 1..] == output[e + 1..];
    SubstitutePlaceholder(s, e - start, values);
    var key := output[start + 1..e];
    if key in values {
      var value := values[key];
      var replaced := output[..start] + value + output[e + 1..];
      assert replaced[..start + |value|] == output[..start] + value;
      assert replaced[start + |value|..] == output[e + 1..];
      PrependAppend(output[..start], value, Substitute(output[e + 1..], values));
    }
  }

  /** A '$' at `start` with no later '$': the scan ends with the buffer as it is. */
  lemma ScanUnclosed(output: string, start: nat, values: map<string, string>)
    requires start < |output| && output[start] == '$'
    requires forall k :: start < k < |output| ==> output[k] != '$'
    ensures Prepend(output[..start], Substitute(output[start..], values)) == Ok(output)
  {
    SubstituteUnclosed(output[start..], values);
    assert output[..start] + output[start..] == output;
  }

  /** The inner loop of the scanner: the position of the first '$' after
      `start`, if there is one. */
  method FindClosing(output: string, start: nat) returns (end: Option<nat>)
    requires start < |output|
    ensures end.Some? ==> start < end.value < |output| && output[end.value] == '$'
    ensures end.Some? ==> forall k :: start < k < end.value ==> output[k] != '$'
    ensures end.None? ==> forall k :: start < k < |output| ==> output[k] != '$'
  {
    var index := start + 1;
    end := None;
    while index < |output|
      invariant start < index <= |output|
      invariant end == None
      invariant forall k :: start < k < index ==> output[k] != '$'
    {
      if output[index] == '$' {
        // End of the substitution.
        end := Some(index);
        break;
      }
      index := index + 1;
    }
  }

  /** The in-place scanner of the program. Runs the two nested loops over
      the buffer, replaces each placeholder span (both '$' included) by its
      value and resumes right after the inserted value. The outer loop ends
      because `|output| + 1 - index` decreases on every path, also when an
      empty value leaves the index where the placeholder started. */
  method FormatTemplate(template: string, values: map<string, string>) returns (r: Result<string, Failure>)
    ensures r == Substitute(template, values)
  {
    var output := template;
    var index: nat := 0;
    assert output[..index] == [] && output[index..] == template;
    PrependEmpty(Substitute(template, values));
    while index < |output|
      invariant index <= |output| + 1
      invariant index <= |output| ==>
        Substitute(template, values) == Prepend(output[..index], Substitute(output[index..], values))
      invariant index == |output| + 1 ==> Substitute(template, values) == Ok(output)
      decreases |output| + 1 - index
    {
      if output[index] == '$' {
        // Start of a substitution.
        var start := index;
        var end := FindClosing(output, start);
        if end.Some? {
          ScanPlaceholder(output, start, end.value, values);
          var key := output[start + 1..end.value];
          if key !in values {
            return Err(MissingKey(key));
          }
          var value := values[key];
          output := output[..start] + value + output[end.value + 1..];
          index := start + |value|;
          continue;
        }
        ScanUnclosed(output, start, values);
        index := |output|;
      } else {
        ScanPlain(output, index, values);
      }
      index := index + 1;
    }
    if index == |output| {
      assert output[..index] == output;
      assert output[index..] == [];
      assert output + [] == output;
    }
    r := Ok(output);
  }

  /** Text before the first '$' is copied unchanged in front of the rest. */
  lemma {:induction false} SubstitutePlainPrefix(pre: string, rest: string, values: map<string, string>)
    requires '$' !in pre
    ensures Substitute(pre + rest, values) == Prepend(pre, Substitute(rest, values))
    ensures Placeholders(pre + rest) == Placeholders(rest)
  {
    if pre == [] {
      assert pre + rest == rest;
      PrependEmpty(Substitute(rest, values));
    } else {
      var s := pre + rest;
      assert s[0] == pre[0] && s[1..] == pre[1..] + rest;
      SubstitutePlainPrefix(pre[1..], rest, values);
      PrependAppend([pre[0]], pre[1..], Substitute(rest, values));
      assert [pre[0]] + pre[1..] == pre;
    }
  }

  /** A template without any '$' is returned unchanged. */
  lemma NoDollarUnchanged(s: string, values: map<string, string>)
    requires '$' !in s
    ensures Substitute(s, values) == Ok(s)
    ensures Placeholders(s) == []
  {
    SubstitutePlainPrefix(s, [], values);
    assert s + [] == s;
  }

  /** `pre $key$ post`, with no '$' in `pre` or in `key`: the span from the
      opening to the closing '$' is replaced by the value of `key`, or the
      whole substitution fails naming `key` when it is not mapped. */
  lemma SubstituteSpan(pre: string, key: string, post: string, values: map<string, string>)
    requires '$' !in pre && '$' !in key
    ensures Substitute(pre + "$" + key + "$" + post, values) ==
      if key in values then Prepend(pre + values[key], Substitute(post, values))
      else Err(MissingKey(key))
  {
    var s := "$" + key + "$" + post;
    assert pre + "$" + key + "$" + post == pre + s;
    SubstitutePlainPrefix(pre, s, values);
    assert s[1..|key| + 1] == key && s[|key| + 2..] == post;
    SubstitutePlaceholder(s, |key| + 1, values);
    if key in values {
      PrependAppend(pre, values[key], Substitute(post, values));
    }
  }

  /** Substitution is single pass: the value of a placeholder appears
      verbatim in the output even when it contains placeholders itself. */
  lemma ValueNotRescanned(key: string, values: map<string, string>)
    requires '$' !in key && key in values
    ensures Substitute("$" + key + "$", values) == Ok(values[key])
  {
    SubstituteSpan([], key, [], values);
    assert [] + "$" + key + "$" + [] == "$" + key + "$";
    assert [] + values[key] + [] == values[key];
  }

  /** "$$" is the placeholder with the empty key: it fails unless "" is mapped. */
  lemma EmptyKey(post: string, values: map<string, string>)
    requires "" !in values
    ensures Substitute("$$" + post, values) == Err(MissingKey(""))
  {
    SubstituteSpan([], [], post, values);
    assert [] + "$" + [] + "$" + post == "$$" + post;
  }

  /** An opening '$' with no later '$' leaves the text unchanged, without error. */
  lemma UnclosedDollarUnchanged(pre: string, rest: string, values: map<string, string>)
    requires '$' !in pre && '$' !in rest
    ensures Substitute(pre + "$" + rest, values) == Ok(pre + "$" + rest)
  {
    var s := "$" + rest;
    assert pre + "$" + rest == pre + s;
    SubstitutePlainPrefix(pre, s, values);
    SubstituteUnclosed(s, values);
  }

  /** Substitution succeeds exactly when every placeholder's key is mapped;
      when it fails, the error names a placeholder key that is not mapped. */
  lemma {:induction false} SubstituteSucceedsIff(s: string, values: map<string, string>)
    ensures Substitute(s, values).Ok? <==> forall k :: k in Placeholders(s) ==> k in values
    ensures Substitute(s, values).Err? ==>
      Substitute(s, values).error.MissingKey? &&
      Substitute(s, values).error.key in Placeholders(s) &&
      Substitute(s, values).error.key !in values
    decreases |s|
  {
    if s == [] {
    } else if s[0] != '$' {
      SubstituteSucceedsIff(s[1..], values);
    } else {
      match IndexOf(s, '$', 1)
      case None =>
      case Some(e) =>
        SubstituteSucceedsIff(s[e + 1..], values);
    }
  }
}
