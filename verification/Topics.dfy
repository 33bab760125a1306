/** Topic names and filters: splitting into levels, validating and matching. */
module Topics {

  // ---------------------------------------------------------------- levels

  /** The levels of a topic, one character at a time: never empty. */
  function Split(topic: string): (levels: seq<string>)
    ensures |levels| > 0
  {
    if topic == "" then [""]
    else
      var init, c := Split(topic[..|topic| - 1]), topic[|topic| - 1];
      if c == '/' then init + [""] else init[..|init| - 1] + [init[|init| - 1] + [c]]
  }

  function Join(levels: seq<string>): string
    requires |levels| > 0
  {
    if |levels| == 1 then levels[0] else Join(levels[..|levels| - 1]) + "/" + levels[|levels| - 1]
  }

  predicate SlashFree(level: string) {
    forall i :: 0 <= i < |level| ==> level[i] != '/'
  }

  ghost predicate LevelList(levels: seq<string>) {
    |levels| > 0 && forall i :: 0 <= i < |levels| ==> SlashFree(levels[i])
  }

  method SplitTopic(topic: string) returns (parts: seq<string>)
    ensures parts == Split(topic)
  {
    parts := [];
    var start := 0;
    assert Split(topic[..0]) == [""];
    for i := 0 to |topic|
      invariant 0 <= start <= i
      invariant parts + [topic[start..i]] == Split(topic[..i])
    {
      ghost var shown := parts + [topic[start..i]];
      assert topic[..i + 1][..i] == topic[..i];
      assert shown[..|shown| - 1] == parts;
      if topic[i] == '/' {
        parts := parts + [topic[start..i]];
        start := i + 1;
        assert topic[start..i + 1] == "";
      } else {
        assert topic[start..i + 1] == topic[start..i] + [topic[i]];
        assert Split(topic[..i + 1]) == parts + [topic[start..i + 1]];
      }
    }
    assert topic[..|topic|] == topic;
    parts := parts + [topic[start..]];
  }

  lemma {:induction false} SplitIsLevelList(topic: string)
    ensures LevelList(Split(topic))
  {
    if topic != "" {
      SplitIsLevelList(topic[..|topic| - 1]);
    }
  }

  lemma JoinExtendsLast(levels: seq<string>, c: char)
    requires |levels| > 0
    ensures Join(levels[..|levels| - 1] + [levels[|levels| - 1] + [c]]) == Join(levels) + [c]
  {
    var longer := levels[..|levels| - 1] + [levels[|levels| - 1] + [c]];
    assert longer[..|levels| - 1] == levels[..|levels| - 1];
    if |levels| > 1 {
      var a, b := Join(levels[..|levels| - 1]), levels[|levels| - 1];
      assert a + "/" + (b + [c]) == (a + "/" + b) + [c];
    }
  }

  /** Splitting loses nothing. */
  lemma {:induction false} JoinSplit(topic: string)
    ensures Join(Split(topic)) == topic
  {
    if topic != "" {
      var init, c := topic[..|topic| - 1], topic[|topic| - 1];
      JoinSplit(init);
      if c == '/' {
        var levels := Split(init) + [""];
        assert levels[..|levels| - 1] == Split(init);
        assert Join(levels) == init + "/" + "";
      } else {
        JoinExtendsLast(Split(init), c);
      }
      assert topic == init + [c];
    }
  }

  lemma SplitInjective(a: string, b: string)
    requires Split(a) == Split(b)
    ensures a == b
  {
    JoinSplit(a);
    JoinSplit(b);
  }

  lemma {:induction false} SplitAppendLevel(topic: string, level: string)
    requires SlashFree(level)
    ensures Split(topic + "/" + level) == Split(topic) + [level]
    decreases |level|
  {
    var whole := topic + "/" + level;
    if level == "" {
      assert whole[..|whole| - 1] == topic;
    } else {
      var init, c := level[..|level| - 1], level[|level| - 1];
      SplitAppendLevel(topic, init);
      assert whole[..|whole| - 1] == topic + "/" + init;
      assert c != '/';
      var shorter := Split(topic) + [init];
      assert shorter[..|shorter| - 1] == Split(topic);
      assert init + [c] == level;
    }
  }

  lemma {:induction false} SplitSlashFree(level: string)
    requires SlashFree(level)
    ensures Split(level) == [level]
  {
    if level != "" {
      var init, c := level[..|level| - 1], level[|level| - 1];
      SplitSlashFree(init);
      assert c != '/';
      assert init + [c] == level;
    }
  }

  lemma {:induction false} SplitFirst(level: string, rest: string)
    requires SlashFree(level)
    ensures |Split(level + "/" + rest)| > 1 && Split(level + "/" + rest)[0] == level
    decreases |rest|
  {
    var whole := level + "/" + rest;
    if rest == "" {
      SplitSlashFree(level);
      assert whole[..|whole| - 1] == level;
    } else {
      SplitFirst(level, rest[..|rest| - 1]);
      assert whole[..|whole| - 1] == level + "/" + rest[..|rest| - 1];
    }
  }

  /** Every non-empty list of slash-free levels is the split of exactly its join. */
  lemma {:induction false} SplitJoin(levels: seq<string>)
    requires LevelList(levels)
    ensures Split(Join(levels)) == levels
    decreases |levels|
  {
    if |levels| == 1 {
      SplitSlashFree(levels[0]);
    } else {
      var init := levels[..|levels| - 1];
      SplitJoin(init);
      SplitAppendLevel(Join(init), levels[|levels| - 1]);
    }
  }

  // ---------------------------------------------------------------- validation

  predicate Wild(c: char) {
    c == '#' || c == '+'
  }

  predicate PublishTopic(topic: string) {
    topic != "" && forall i :: 0 <= i < |topic| ==> !Wild(topic[i])
  }

  method ValidatePublishTopic(topic: string) returns (ok: bool)
    ensures ok == PublishTopic(topic)
  {
    if |topic| == 0 {
      return false;
    }
    for i := 0 to |topic|
      invariant forall j :: 0 <= j < i ==> !Wild(topic[j])
    {
      if topic[i] == '#' || topic[i] == '+' {
        return false;
      }
    }
    ok := true;
  }

  /** The positional rule ValidateTopicFilter checks at index i. */
  predicate PositionOk(filter: string, i: nat)
    requires i < |filter|
  {
    && (filter[i] == '#' ==> i == |filter| - 1 && (i > 0 ==> filter[i - 1] == '/'))
    && (filter[i] == '+' ==> (i > 0 ==> filter[i - 1] == '/') && (i < |filter| - 1 ==> filter[i + 1] == '/'))
  }

  predicate PositionsOk(filter: string) {
    forall i :: 0 <= i < |filter| ==> PositionOk(filter, i)
  }

  /** The rule of section 4.7.1 on levels: a wildcard fills its level, and '#' comes last. */
  predicate LevelOk(level: string) {
    (forall i :: 0 <= i < |level| ==> !Wild(level[i])) || level == "+" || level == "#"
  }

  ghost predicate ValidLevels(levels: seq<string>) {
    && (forall i :: 0 <= i < |levels| ==> LevelOk(levels[i]))
    && (forall i :: 0 <= i < |levels| - 1 ==> levels[i] != "#")
  }

  ghost predicate ValidFilter(filter: string) {
    filter != "" && ValidLevels(Split(filter))
  }

  lemma SingleLevelPositions(level: string)
    requires SlashFree(level)
    ensures PositionsOk(level) <==> LevelOk(level)
  {
    if PositionsOk(level) {
      if i :| 0 <= i < |level| && Wild(level[i]) {
        assert PositionOk(level, i);
      }
    } else {
      var i :| 0 <= i < |level| && !PositionOk(level, i);
      assert Wild(level[i]);
    }
  }

  lemma AppendLevelPositions(a: string, b: string)
    requires SlashFree(b)
    ensures PositionsOk(a + "/" + b) <==> PositionsOk(a) && (forall i :: 0 <= i < |a| ==> a[i] != '#') && PositionsOk(b)
  {
    var s := a + "/" + b;
    assert forall i :: 0 <= i < |a| ==> s[i] == a[i];
    assert forall i :: 0 <= i < |b| ==> s[|a| + 1 + i] == b[i];
    if PositionsOk(s) {
      forall i | 0 <= i < |a| ensures PositionOk(a, i) && a[i] != '#' {
        assert PositionOk(s, i);
      }
      forall i | 0 <= i < |b| ensures PositionOk(b, i) {
        assert PositionOk(s, |a| + 1 + i);
        assert i > 0 ==> s[|a| + i] == b[i - 1];
        assert i < |b| - 1 ==> s[|a| + 2 + i] == b[i + 1];
      }
    }
    if PositionsOk(a) && (forall i :: 0 <= i < |a| ==> a[i] != '#') && PositionsOk(b) {
      forall i | 0 <= i < |s| ensures PositionOk(s, i) {
        if i < |a| {
          assert PositionOk(a, i);
        } else if i > |a| {
          var j := i - |a| - 1;
          assert PositionOk(b, j);
          assert j > 0 ==> s[i - 1] == b[j - 1];
          assert j < |b| - 1 ==> s[i + 1] == b[j + 1];
        }
      }
    }
  }

  predicate HashFree(s: string) {
    forall i :: 0 <= i < |s| ==> s[i] != '#'
  }

  lemma HashFreeAppend(a: string, b: string)
    ensures HashFree(a + "/" + b) <==> HashFree(a) && HashFree(b)
  {
    var s := a + "/" + b;
    assert forall i :: 0 <= i < |a| ==> s[i] == a[i];
    assert forall i :: 0 <= i < |b| ==> s[|a| + 1 + i] == b[i];
    if HashFree(a) && HashFree(b) {
      forall i | 0 <= i < |s| ensures s[i] != '#' {
        assert i > |a| ==> s[i] == b[i - |a| - 1];
      }
    }
  }

  lemma {:induction false} JoinHashFree(levels: seq<string>)
    requires |levels| > 0
    ensures HashFree(Join(levels)) <==> forall i :: 0 <= i < |levels| ==> HashFree(levels[i])
    decreases |levels|
  {
    if |levels| > 1 {
      var init, last := levels[..|levels| - 1], levels[|levels| - 1];
      JoinHashFree(init);
      HashFreeAppend(Join(init), last);
      assert levels == init + [last];
    }
  }

  lemma {:induction false} PositionsAreLevels(levels: seq<string>)
    requires LevelList(levels)
    ensures PositionsOk(Join(levels)) <==> ValidLevels(levels)
    decreases |levels|
  {
    if |levels| == 1 {
      SingleLevelPositions(levels[0]);
    } else {
      var init, last := levels[..|levels| - 1], levels[|levels| - 1];
      PositionsAreLevels(init);
      SingleLevelPositions(last);
      AppendLevelPositions(Join(init), last);
      JoinHashFree(init);
      assert levels == init + [last];
      assert forall l: string :: LevelOk(l) ==> (HashFree(l) <==> l != "#") by {
        forall l: string | LevelOk(l) ensures HashFree(l) <==> l != "#" {
          if l == "#" {
            assert l[0] == '#';
          }
        }
      }
    }
  }

  /** The character loop accepts exactly the non-empty filters whose levels obey the rule. */
  method ValidateTopicFilter(filter: string) returns (ok: bool)
    ensures ok <==> ValidFilter(filter)
  {
    SplitIsLevelList(filter);
    JoinSplit(filter);
    PositionsAreLevels(Split(filter));
    if |filter| == 0 {
      return false;
    }
    for i := 0 to |filter|
      invariant forall j :: 0 <= j < i ==> PositionOk(filter, j)
    {
      if filter[i] == '#' {
        if i != |filter| - 1 || (i > 0 && filter[i - 1] != '/') {
          assert !PositionOk(filter, i);
          return false;
        }
      } else if filter[i] == '+' {
        if (i > 0 && filter[i - 1] != '/') || (i < |filter| - 1 && filter[i + 1] != '/') {
          assert !PositionOk(filter, i);
          return false;
        }
      }
    }
    ok := true;
  }

  // ---------------------------------------------------------------- matching

  /** The matching relation on levels. */
  predicate Match(pattern: seq<string>, topic: seq<string>)
    decreases |pattern|
  {
    if pattern == [] then topic == []
    else if pattern[0] == "#" then true
    else topic != [] && (pattern[0] == "+" || pattern[0] == topic[0]) && Match(pattern[1..], topic[1..])
  }

  method MatchLevels(patternLevels: seq<string>, topicLevels: seq<string>) returns (ok: bool)
    ensures ok == Match(patternLevels, topicLevels)
  {
    var i := 0;
    while i < |patternLevels|
      invariant 0 <= i <= |patternLevels| && i <= |topicLevels|
      invariant Match(patternLevels, topicLevels) == Match(patternLevels[i..], topicLevels[i..])
    {
      var pattern := patternLevels[i];
      if pattern == "#" {
        return true;
      }
      if i >= |topicLevels| {
        return false;
      }
      if pattern != "+" && pattern != topicLevels[i] {
        return false;
      }
      assert patternLevels[i..][1..] == patternLevels[i + 1..] && topicLevels[i..][1..] == topicLevels[i + 1..];
      i := i + 1;
    }
    return |patternLevels| == |topicLevels|;
  }

  predicate Covers1(p: string, l: string) {
    p == "+" || p == l
  }

  /** What matching means: level by level up to the first '#', or over the whole length. */
  lemma {:induction false} MatchMeaning(p: seq<string>, t: seq<string>, k: nat)
    requires k <= |p| && (forall i :: 0 <= i < k ==> p[i] != "#") && (k < |p| ==> p[k] == "#")
    ensures Match(p, t) <==> (if k < |p| then k <= |t| else |t| == |p|) && forall i :: 0 <= i < k && i < |t| ==>
        Covers1(p[i], t[i])
    decreases k
  {
    if k > 0 {
      assert p[0] != "#";
      if t != [] {
        MatchMeaning(p[1..], t[1..], k - 1);
        assert (forall i :: 0 <= i < k && i < |t| ==> Covers1(p[i], t[i])) <==>
               Covers1(p[0], t[0]) && forall i :: 0 <= i < k - 1 && i < |t[1..]| ==> Covers1(p[1..][i], t[1..][i]) by {
          assert forall i :: 0 <= i < |p[1..]| ==> p[1..][i] == p[i + 1];
          assert forall i :: 0 <= i < |t[1..]| ==> t[1..][i] == t[i + 1];
          if Covers1(p[0], t[0]) && forall i :: 0 <= i < k - 1 && i < |t[1..]| ==> Covers1(p[1..][i], t[1..][i]) {
            forall i | 0 <= i < k && i < |t| ensures Covers1(p[i], t[i]) {
              if i > 0 {
                assert Covers1(p[1..][i - 1], t[1..][i - 1]);
              }
            }
          }
        }
      }
    }
  }

  predicate Dollar(level: string) {
    level != "" && level[0] == '$'
  }

  /** The '$' protection of section 4.7.2: a wildcard in the first level does not reach such a topic. */
  predicate MatchProtected(p: seq<string>, t: seq<string>)
    requires |p| > 0 && |t| > 0
  {
    !(Dollar(t[0]) && (p[0] == "#" || p[0] == "+")) && Match(p, t)
  }

  function FirstLevel(pattern: string): string {
    if pattern == "" || pattern[0] == '/' then "" else [pattern[0]] + FirstLevel(pattern[1..])
  }

  lemma {:induction false} FirstLevelIsSplitHead(pattern: string)
    ensures FirstLevel(pattern) == Split(pattern)[0]
    decreases |pattern|
  {
    if pattern != "" {
      var init, c := pattern[..|pattern| - 1], pattern[|pattern| - 1];
      FirstLevelIsSplitHead(init);
      FirstLevelAppend(init, c);
      assert pattern == init + [c];
      SplitSingle(init);
    }
  }

  /** A topic has one level exactly when it has no separator, and then that level is the topic. */
  lemma {:induction false} SplitSingle(topic: string)
    ensures |Split(topic)| == 1 <==> SlashFree(topic)
    ensures SlashFree(topic) ==> Split(topic)[0] == topic
  {
    if topic != "" {
      var init, c := topic[..|topic| - 1], topic[|topic| - 1];
      SplitSingle(init);
      SlashFreeAppend(init, c);
      assert topic == init + [c];
      if c == '/' {
        assert |Split(topic)| == |Split(init)| + 1;
      } else {
        assert |Split(topic)| == |Split(init)|;
      }
    }
  }

  lemma SlashFreeAppend(s: string, c: char)
    ensures SlashFree(s + [c]) <==> SlashFree(s) && c != '/'
  {
    assert (s + [c])[|s|] == c;
    assert forall i :: 0 <= i < |s| ==> (s + [c])[i] == s[i];
  }

  lemma {:induction false} FirstLevelAppend(s: string, c: char)
    ensures FirstLevel(s + [c]) == if SlashFree(s) && c != '/' then FirstLevel(s) + [c] else FirstLevel(s)
    decreases |s|
  {
    if s != "" {
      assert (s + [c])[1..] == s[1..] + [c];
      if s[0] != '/' {
        FirstLevelAppend(s[1..], c);
        assert SlashFree(s) <==> SlashFree(s[1..]) by {
          assert s == [s[0]] + s[1..];
        }
      } else {
        assert !SlashFree(s);
      }
    } else {
      assert s + [c] == [c] && [c][1..] == "";
    }
  }

  /** matchSysProtected looks at the first character of the topic and the text before the first '/'. */
  method MatchSysProtected(pattern: string, topic: string) returns (ok: bool)
    ensures ok == MatchProtected(Split(pattern), Split(topic))
  {
    FirstLevelIsSplitHead(pattern);
    FirstLevelIsSplitHead(topic);
    if |topic| > 0 && topic[0] == '$' {
      var first := FirstLevel(pattern);
      if first == "#" || first == "+" {
        return false;
      }
    }
    ok := MatchTopic(pattern, topic);
  }

  method MatchTopic(pattern: string, topic: string) returns (ok: bool)
    ensures ok == Match(Split(pattern), Split(topic))
  {
    var p := SplitTopic(pattern);
    var t := SplitTopic(topic);
    ok := MatchLevels(p, t);
  }
}
