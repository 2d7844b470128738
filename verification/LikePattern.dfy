/** SQL LIKE as ClickHouse matches it: % is any text, _ any character, a backslash escapes %, _ and itself
    and is an ordinary character elsewhere. */
module LikePattern {

  predicate IsMeta(c: char) {
    c == '%' || c == '_' || c == '\\'
  }

  predicate Like(pattern: string, text: string)
    decreases |pattern| + |text|
  {
    if pattern == [] then text == []
    else if pattern[0] == '%' then Like(pattern[1..], text) || (text != [] && Like(pattern, text[1..]))
    else if pattern[0] == '_' then text != [] && Like(pattern[1..], text[1..])
    else if pattern[0] == '\\' && |pattern| >= 2 && IsMeta(pattern[1]) then
      text != [] && text[0] == pattern[1] && Like(pattern[2..], text[1..])
    else text != [] && text[0] == pattern[0] && Like(pattern[1..], text[1..])
  }

  ghost predicate Contains(text: string, part: string) {
    exists k | 0 <= k <= |text| :: part <= text[k..]
  }

  /** The value has no wildcard: no %, no _, no pair of backslashes and no backslash at its end. */
  predicate Plain(v: string) {
    v == [] ||
    (v[0] != '%' && v[0] != '_' && (v[0] == '\\' ==> |v| > 1 && v[1] != '\\') && Plain(v[1..]))
  }

  lemma {:induction false} LeadingPercent(pattern: string, text: string)
    ensures Like("%" + pattern, text) <==> exists k | 0 <= k <= |text| :: Like(pattern, text[k..])
    decreases text
  {
    assert ("%" + pattern)[1..] == pattern;
    assert text[0..] == text;
    if text != [] {
      LeadingPercent(pattern, text[1..]);
      forall k | 0 <= k <= |text[1..]| ensures text[1..][k..] == text[k + 1..] {}
      if k :| 0 <= k <= |text| && Like(pattern, text[k..]) {
        if k > 0 { assert text[1..][k - 1..] == text[k..]; }
      }
    }
  }

  lemma {:induction false} PlainPrefix(v: string, text: string)
    requires Plain(v)
    ensures Like(v + "%", text) <==> v <= text
    decreases v
  {
    var pattern := v + "%";
    if v == [] {
      LeadingPercent("", text);
      assert pattern == "%" + "";
      assert Like("", text[|text|..]);
    } else {
      assert pattern[0] == v[0] && pattern[1..] == v[1..] + "%";
      assert |v| > 1 ==> pattern[1] == v[1] && v[1] != '%' && v[1] != '_';
      if text != [] {
        PlainPrefix(v[1..], text[1..]);
      }
    }
  }

  /** For a plain value, LIKE with % on both sides is substring search. */
  lemma PlainIsSubstring(v: string, text: string)
    requires Plain(v)
    ensures Like("%" + v + "%", text) <==> Contains(text, v)
  {
    assert "%" + v + "%" == "%" + (v + "%");
    LeadingPercent(v + "%", text);
    forall k | 0 <= k <= |text| ensures Like(v + "%", text[k..]) <==> v <= text[k..] {
      PlainPrefix(v, text[k..]);
    }
  }

  /** A shortest text that the value matches when it is read as a pattern. */
  function Sample(v: string): (s: string)
    ensures |s| <= |v|
  {
    if v == [] then []
    else if v[0] == '%' then Sample(v[1..])
    else if v[0] == '_' then "a" + Sample(v[1..])
    else if v[0] == '\\' && |v| == 1 then "%"
    else if v[0] == '\\' && IsMeta(v[1]) then [v[1]] + Sample(v[2..])
    else [v[0]] + Sample(v[1..])
  }

  lemma {:induction false} SampleMatches(v: string)
    ensures Like(v + "%", Sample(v))
    decreases v
  {
    var pattern, text := v + "%", Sample(v);
    if v == [] {
      assert pattern[1..] == [];
    } else {
      assert pattern[1..] == v[1..] + "%";
      if v[0] == '%' {
        SampleMatches(v[1..]);
      } else if v[0] == '\\' && |v| == 1 {
        assert pattern[2..] == [] && text[1..] == [];
      } else if v[0] == '\\' && IsMeta(v[1]) {
        SampleMatches(v[2..]);
        assert pattern[2..] == v[2..] + "%" && text[1..] == Sample(v[2..]);
      } else {
        SampleMatches(v[1..]);
        assert text[1..] == Sample(v[1..]);
      }
    }
  }

  lemma {:induction false} SampleOfPlain(v: string)
    ensures Sample(v) == v ==> Plain(v)
    decreases v
  {
    if v != [] && v[0] != '%' && v[0] != '_' && (v[0] != '\\' || (|v| > 1 && !IsMeta(v[1]))) {
      assert Sample(v)[1..] == Sample(v[1..]);
      SampleOfPlain(v[1..]);
    } else if v != [] {
      assert |Sample(v)| < |v| || Sample(v)[0] != v[0];
    }
  }

  /** LIKE with % on both sides is substring search for all texts exactly when the value is plain. */
  lemma SubstringIffPlain(v: string)
    ensures (forall text :: Like("%" + v + "%", text) <==> Contains(text, v)) <==> Plain(v)
  {
    if Plain(v) {
      forall text ensures Like("%" + v + "%", text) <==> Contains(text, v) {
        PlainIsSubstring(v, text);
      }
    } else {
      var text := Sample(v);
      SampleMatches(v);
      SampleOfPlain(v);
      assert text[0..] == text;
      LeadingPercent(v + "%", text);
      assert "%" + v + "%" == "%" + (v + "%");
      assert Like("%" + v + "%", text) && !Contains(text, v);
    }
  }
}
