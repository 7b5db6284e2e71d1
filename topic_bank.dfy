/**
 The topic-bank lookup: the key is the subject and the grade with surrounding
 whitespace stripped, and the bank maps a (subject, grade) pair to its ordered
 topic list (scolaris_app.py, lines 129-133).
 */
module TopicBank {

  import opened Wrappers

  type Topic = string

  /** A fixed bank from (subject, grade) to the topics of that course, in teaching order. */
  type Bank = map<(string, string), seq<Topic>>

  /** The characters Python's `str.isspace` accepts, which `str.strip()` removes. */
  predicate IsSpace(c: char)
  {
    ('\t' <= c <= '\r') || ('\U{1C}' <= c <= '\U{1F}') || c == ' ' ||
    c == '\U{85}' || c == '\U{A0}' || c == '\U{1680}' ||
    ('\U{2000}' <= c <= '\U{200A}') || c == '\U{2028}' || c == '\U{2029}' ||
    c == '\U{202F}' || c == '\U{205F}' || c == '\U{3000}'
  }

  predicate AllSpace(s: string)
  {
    forall i :: 0 <= i < |s| ==> IsSpace(s[i])
  }

  /** `s` with its leading whitespace removed. */
  function StripLeading(s: string): string
  {
    if s != [] && IsSpace(s[0]) then StripLeading(s[1..]) else s
  }

  /** `s` with its trailing whitespace removed. */
  function StripTrailing(s: string): string
  {
    if s != [] && IsSpace(s[|s| - 1]) then StripTrailing(s[..|s| - 1]) else s
  }

  /** Python's `str.strip()` with no argument. */
  function Strip(s: string): string
  {
    StripTrailing(StripLeading(s))
  }

  /** Stripping the start leaves a suffix that was cut after whitespace only and starts with a non-space. */
  lemma {:induction false} StripLeadingSpec(s: string)
    ensures var r := StripLeading(s);
            && |r| <= |s| && r == s[|s| - |r|..]
            && AllSpace(s[..|s| - |r|])
            && (r != [] ==> !IsSpace(r[0]))
  {
    if s != [] && IsSpace(s[0]) {
      StripLeadingSpec(s[1..]);
      var r := StripLeading(s[1..]);
      assert s[..|s| - |r|] == [s[0]] + s[1..][..|s| - 1 - |r|];
    }
  }

  /** Stripping the end leaves a prefix that was cut before whitespace only and ends with a non-space. */
  lemma {:induction false} StripTrailingSpec(s: string)
    ensures var r := StripTrailing(s);
            && |r| <= |s| && r == s[..|r|]
            && AllSpace(s[|r|..])
            && (r != [] ==> !IsSpace(r[|r| - 1]))
  {
    if s != [] && IsSpace(s[|s| - 1]) {
      StripTrailingSpec(s[..|s| - 1]);
      var r := StripTrailing(s[..|s| - 1]);
      assert s[|r|..] == s[..|s| - 1][|r|..] + [s[|s| - 1]];
    }
  }

  /**
   `strip` cuts whitespace only, from both ends, and leaves a string that
   neither starts nor ends with whitespace.
   */
  lemma StripSpec(s: string)
    ensures var r := Strip(s);
            && (r != [] ==> !IsSpace(r[0]) && !IsSpace(r[|r| - 1]))
            && (exists i :: 0 <= i <= |s| - |r| && r == s[i..i + |r|] && AllSpace(s[..i]) && AllSpace(s[i + |r|..]))
  {
    var m := StripLeading(s);
    StripLeadingSpec(s);
    StripTrailingSpec(m);
    var r := StripTrailing(m);
    var i := |s| - |m|;
    assert r == s[i..i + |r|];
    assert AllSpace(s[i + |r|..]) by {
      assert s[i + |r|..] == m[|r|..];
    }
    if r != [] {
      assert r[0] == m[0];
    }
  }

  /** The topics stored for a subject and grade, looked up with both stripped. */
  function Lookup(bank: Bank, subject: string, grade: string): (r: Option<seq<Topic>>)
    ensures r.Some? <==> (Strip(subject), Strip(grade)) in bank
    ensures r.Some? ==> r.value == bank[(Strip(subject), Strip(grade))]
  {
    var key := (Strip(subject), Strip(grade));
    if key in bank then Some(bank[key]) else None
  }

  lemma {:induction false} LeadingPaddingIgnored(pre: string, s: string)
    requires AllSpace(pre)
    ensures StripLeading(pre + s) == StripLeading(s)
  {
    if pre != [] {
      assert (pre + s)[0] == pre[0] && IsSpace(pre[0]);
      assert (pre + s)[1..] == pre[1..] + s;
      assert AllSpace(pre[1..]);
      LeadingPaddingIgnored(pre[1..], s);
    } else {
      assert pre + s == s;
    }
  }

  lemma {:induction false} TrailingPaddingIgnored(s: string, post: string)
    requires AllSpace(post)
    ensures StripTrailing(s + post) == StripTrailing(s)
  {
    if post != [] {
      assert (s + post)[|s + post| - 1] == post[|post| - 1] && IsSpace(post[|post| - 1]);
      assert (s + post)[..|s + post| - 1] == s + post[..|post| - 1];
      assert AllSpace(post[..|post| - 1]);
      TrailingPaddingIgnored(s, post[..|post| - 1]);
    } else {
      assert s + post == s;
    }
  }

  /** Whitespace after a string that is not all whitespace survives stripping its start. */
  lemma {:induction false} StripLeadingKeepsTail(s: string, post: string)
    requires !AllSpace(s)
    ensures StripLeading(s + post) == StripLeading(s) + post
  {
    assert s != [];
    if IsSpace(s[0]) {
      assert (s + post)[1..] == s[1..] + post;
      assert !AllSpace(s[1..]) by {
        var i :| 0 <= i < |s| && !IsSpace(s[i]);
        assert s[1..][i - 1] == s[i];
      }
      StripLeadingKeepsTail(s[1..], post);
    }
  }

  /** A string of whitespace only strips to nothing. */
  lemma {:induction false} AllSpaceStripsAway(s: string)
    requires AllSpace(s)
    ensures StripLeading(s) == []
  {
    if s != [] {
      assert AllSpace(s[1..]);
      AllSpaceStripsAway(s[1..]);
    }
  }

  /** Surrounding whitespace never changes what `strip` returns. */
  lemma StripIgnoresPadding(pre: string, s: string, post: string)
    requires AllSpace(pre) && AllSpace(post)
    ensures Strip(pre + s + post) == Strip(s)
  {
    assert pre + s + post == pre + (s + post);
    LeadingPaddingIgnored(pre, s + post);
    if AllSpace(s) {
      assert AllSpace(s + post);
      AllSpaceStripsAway(s + post);
      AllSpaceStripsAway(s);
    } else {
      StripLeadingKeepsTail(s, post);
      TrailingPaddingIgnored(StripLeading(s), post);
    }
  }

  /** A string that neither starts nor ends with whitespace is its own strip. */
  lemma StripUnpadded(s: string)
    requires s != [] ==> !IsSpace(s[0]) && !IsSpace(s[|s| - 1])
    ensures Strip(s) == s
  {
  }

  /** Stripping twice is stripping once. */
  lemma StripIdempotent(s: string)
    ensures Strip(Strip(s)) == Strip(s)
  {
    var r := Strip(s);
    StripSpec(s);
    if r != [] {
      assert StripLeading(r) == r;
      assert StripTrailing(r) == r;
    }
  }

  /** Padding the subject or the grade with whitespace finds the same topics. */
  lemma LookupIgnoresPadding(bank: Bank, subject: string, grade: string,
                             pre: string, post: string, pre': string, post': string)
    requires AllSpace(pre) && AllSpace(post) && AllSpace(pre') && AllSpace(post')
    ensures Lookup(bank, pre + subject + post, pre' + grade + post') == Lookup(bank, subject, grade)
  {
    StripIgnoresPadding(pre, subject, post);
    StripIgnoresPadding(pre', grade, post');
    var padded := (Strip(pre + subject + post), Strip(pre' + grade + post'));
    assert padded == (Strip(subject), Strip(grade));
  }

  /** A subject and grade that are already stripped find the same topics. */
  lemma LookupOfStrippedKey(bank: Bank, subject: string, grade: string)
    ensures Lookup(bank, Strip(subject), Strip(grade)) == Lookup(bank, subject, grade)
  {
    var s, g := Strip(subject), Strip(grade);
    assert Strip(s) == s by { StripIdempotent(subject); }
    assert Strip(g) == g by { StripIdempotent(grade); }
  }
}
