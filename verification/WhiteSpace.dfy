/** White space as the language of the source sees it, and what trimming and stripping keep. */
module WhiteSpace {
  /** What `\s` matches and `trimEnd` removes. */
  predicate IsSpace(c: char) {
    var u := c as int;
    || 0x09 <= u <= 0x0d || u == 0x20 || u == 0xa0 || u == 0x1680 || 0x2000 <= u <= 0x200a
    || u == 0x2028 || u == 0x2029 || u == 0x202f || u == 0x205f || u == 0x3000 || u == 0xfeff
  }

  predicate AllSpace(s: string) {
    forall i :: 0 <= i < |s| ==> IsSpace(s[i])
  }

  /** White space stands at the end. */
  predicate IsSpaced(s: string) {
    s != "" && IsSpace(s[|s| - 1])
  }

  /** The text without its white space. */
  function StripWs(s: string): string {
    if s == "" then ""
    else
      var init := StripWs(s[..|s| - 1]);
      if IsSpace(s[|s| - 1]) then init else init + [s[|s| - 1]]
  }

  function TrimEnd(s: string): string {
    if s == "" then "" else if IsSpace(s[|s| - 1]) then TrimEnd(s[..|s| - 1]) else s
  }

  lemma {:induction false} StripConcat(a: string, b: string)
    ensures StripWs(a + b) == StripWs(a) + StripWs(b)
    decreases |b|
  {
    if b == "" {
      assert a + b == a;
    } else {
      var init := b[..|b| - 1];
      StripConcat(a, init);
      assert (a + b)[..|a + b| - 1] == a + init;
    }
  }

  lemma {:induction false} StripSpace(s: string)
    ensures AllSpace(s) <==> StripWs(s) == ""
  {
    if s != "" {
      StripSpace(s[..|s| - 1]);
    }
  }

  lemma {:induction false} TrimEndPrefix(s: string)
    ensures TrimEnd(s) <= s && AllSpace(s[|TrimEnd(s)|..])
    ensures TrimEnd(s) != "" ==> !IsSpace(TrimEnd(s)[|TrimEnd(s)| - 1])
  {
    hide IsSpace;
    if s != "" && IsSpace(s[|s| - 1]) {
      var init := s[..|s| - 1];
      TrimEndPrefix(init);
      var n := |TrimEnd(init)|;
      assert s == init + [s[|s| - 1]];
      forall i | 0 <= i < |s[n..]| ensures IsSpace(s[n..][i]) {
        if i < |init[n..]| {
          assert s[n..][i] == init[n..][i];
        }
      }
    }
  }

  /** Trimming takes white space off the end, all of it. */
  lemma TrimEndSplits(s: string)
    ensures |TrimEnd(s)| <= |s| && s == TrimEnd(s) + s[|TrimEnd(s)|..]
    ensures AllSpace(s[|TrimEnd(s)|..]) && StripWs(TrimEnd(s)) == StripWs(s)
    ensures TrimEnd(s) != "" ==> !IsSpace(TrimEnd(s)[|TrimEnd(s)| - 1])
    ensures TrimEnd(s) == "" <==> AllSpace(s)
  {
    TrimEndPrefix(s);
    hide IsSpace, TrimEnd, StripWs;
    var body := TrimEnd(s);
    var tail := s[|body|..];
    assert s == body + tail;
    StripConcat(body, tail);
    StripSpace(tail);
    assert StripWs(body) + "" == StripWs(body);
    assert body != "" ==> s[|body| - 1] == body[|body| - 1];
    assert body == "" ==> tail == s;
  }

  /** Trimming stops inside the last part that is not blank. */
  lemma {:induction false} TrimEndConcat(a: string, b: string)
    requires !AllSpace(b)
    ensures TrimEnd(a + b) == a + TrimEnd(b)
    decreases |b|
  {
    var init := b[..|b| - 1];
    assert (a + b)[..|a + b| - 1] == a + init;
    assert b == init + [b[|b| - 1]];
    if IsSpace(b[|b| - 1]) {
      TrimEndConcat(a, init);
    }
  }
}
