/** Access control: an ACL pattern covers a requested filter when it matches every topic the request
matches. The level-by-level check is compared with that containment of topic languages. */
module Acl {
  import opened Topics

  /** The per-level loop of aclCovers. */
  predicate LevelsCover(ap: seq<string>, rp: seq<string>)
    decreases |ap|
  {
    if ap == [] then rp == []
    else if ap[0] == "#" then true
    else if rp == [] || rp[0] == "#" then false
    else if rp[0] == "+" then ap[0] == "+" && LevelsCover(ap[1..], rp[1..])
    else (ap[0] == "+" || ap[0] == rp[0]) && LevelsCover(ap[1..], rp[1..])
  }

  predicate Covers(ap: seq<string>, rp: seq<string>)
    requires |ap| > 0 && |rp| > 0
  {
    !(Dollar(rp[0]) && (ap[0] == "+" || ap[0] == "#")) && LevelsCover(ap, rp)
  }

  method AclCovers(aclPattern: string, requested: string) returns (ok: bool)
    ensures ok == Covers(Split(aclPattern), Split(requested))
  {
    var ap := SplitTopic(aclPattern);
    var rp := SplitTopic(requested);
    if |rp[0]| > 0 && rp[0][0] == '$' && (ap[0] == "+" || ap[0] == "#") {
      return false;
    }
    var i := 0;
    while i < |ap|
      invariant 0 <= i <= |ap| && i <= |rp|
      invariant LevelsCover(ap, rp) == LevelsCover(ap[i..], rp[i..])
    {
      if ap[i] == "#" {
        return true;
      }
      if i >= |rp| {
        return false;
      }
      if rp[i] == "#" {
        return false;
      }
      assert ap[i..][1..] == ap[i + 1..] && rp[i..][1..] == rp[i + 1..];
      if rp[i] == "+" {
        if ap[i] != "+" {
          return false;
        }
      } else if ap[i] != "+" && ap[i] != rp[i] {
        return false;
      }
      i := i + 1;
    }
    return |ap| == |rp|;
  }

  // ---------------------------------------------------------------- topics as level lists

  predicate WildFree(s: string) {
    forall i :: 0 <= i < |s| ==> !Wild(s[i])
  }

  /** The level lists of the topics a client may publish to. */
  ghost predicate TopicLevels(t: seq<string>) {
    LevelList(t) && t != [""] && forall i :: 0 <= i < |t| ==> WildFree(t[i])
  }

  lemma WildFreeAppend(a: string, b: string)
    ensures WildFree(a + "/" + b) <==> WildFree(a) && WildFree(b)
  {
    var s := a + "/" + b;
    assert forall i :: 0 <= i < |a| ==> s[i] == a[i];
    assert forall i :: 0 <= i < |b| ==> s[|a| + 1 + i] == b[i];
    if WildFree(a) && WildFree(b) {
      forall i | 0 <= i < |s| ensures !Wild(s[i]) {
        assert i > |a| ==> s[i] == b[i - |a| - 1];
      }
    }
  }

  lemma {:induction false} WildFreeJoin(levels: seq<string>)
    requires |levels| > 0
    ensures WildFree(Join(levels)) <==> forall i :: 0 <= i < |levels| ==> WildFree(levels[i])
    decreases |levels|
  {
    if |levels| > 1 {
      var init, last := levels[..|levels| - 1], levels[|levels| - 1];
      WildFreeJoin(init);
      WildFreeAppend(Join(init), last);
      assert levels == init + [last];
    }
  }

  lemma PublishTopicLevels(topic: string)
    ensures PublishTopic(topic) <==> TopicLevels(Split(topic))
  {
    SplitIsLevelList(topic);
    JoinSplit(topic);
    WildFreeJoin(Split(topic));
    assert topic == "" <==> Split(topic) == [""] by {
      assert Join([""]) == "";
    }
  }

  /** Every topic the request matches under '$' protection is matched by the ACL under '$' protection. */
  ghost predicate Contained(acl: string, request: string) {
    forall topic: string :: PublishTopic(topic) && MatchProtected(Split(request), Split(topic)) ==>
      MatchProtected(Split(acl), Split(topic))
  }

  ghost predicate LevelsContained(ap: seq<string>, rp: seq<string>)
    requires |ap| > 0 && |rp| > 0
  {
    forall t :: TopicLevels(t) && MatchProtected(rp, t) ==> MatchProtected(ap, t)
  }

  lemma ContainedByLevels(acl: string, request: string)
    ensures Contained(acl, request) <==> LevelsContained(Split(acl), Split(request))
  {
    if Contained(acl, request) {
      forall t | TopicLevels(t) && MatchProtected(Split(request), t) ensures MatchProtected(Split(acl), t) {
        SplitJoin(t);
        PublishTopicLevels(Join(t));
      }
    }
    if LevelsContained(Split(acl), Split(request)) {
      forall topic: string | PublishTopic(topic) && MatchProtected(Split(request), Split(topic))
        ensures MatchProtected(Split(acl), Split(topic))
      {
        PublishTopicLevels(topic);
      }
    }
  }

  // ---------------------------------------------------------------- soundness

  lemma {:induction false} CoverMatches(ap: seq<string>, rp: seq<string>, t: seq<string>)
    requires LevelsCover(ap, rp) && Match(rp, t)
    ensures Match(ap, t)
    decreases |ap|
  {
    if ap != [] && ap[0] != "#" {
      CoverMatches(ap[1..], rp[1..], t[1..]);
    }
  }

  lemma CoversProtected(ap: seq<string>, rp: seq<string>, t: seq<string>)
    requires |ap| > 0 && |rp| > 0 && |t| > 0 && Covers(ap, rp) && MatchProtected(rp, t)
    ensures MatchProtected(ap, t)
  {
    CoverMatches(ap, rp, t);
  }

  // ---------------------------------------------------------------- completeness

  /** A topic the request matches: x for every '+', `tail` for a '#'. */
  function Instance(rp: seq<string>, x: string, tail: seq<string>): seq<string>
    decreases |rp|
  {
    if rp == [] then []
    else if rp[0] == "#" then tail
    else [if rp[0] == "+" then x else rp[0]] + Instance(rp[1..], x, tail)
  }

  lemma {:induction false} InstanceMatches(rp: seq<string>, x: string, tail: seq<string>)
    ensures Match(rp, Instance(rp, x, tail))
    decreases |rp|
  {
    if rp != [] && rp[0] != "#" {
      InstanceMatches(rp[1..], x, tail);
      assert Instance(rp, x, tail)[1..] == Instance(rp[1..], x, tail);
    }
  }

  ghost predicate PlainLevel(x: string) {
    SlashFree(x) && WildFree(x)
  }

  lemma {:induction false} InstancePlain(rp: seq<string>, x: string, tail: seq<string>)
    requires ValidLevels(rp) && (forall i :: 0 <= i < |rp| ==> SlashFree(rp[i]))
    requires PlainLevel(x) && forall i :: 0 <= i < |tail| ==> PlainLevel(tail[i])
    ensures forall i :: 0 <= i < |Instance(rp, x, tail)| ==> PlainLevel(Instance(rp, x, tail)[i])
    decreases |rp|
  {
    if rp != [] && rp[0] != "#" {
      assert LevelOk(rp[0]);
      InstancePlain(rp[1..], x, tail);
    }
  }

  /** A level longer than any level of the pattern. */
  function Longer(ap: seq<string>): (x: string)
    ensures |x| > 0 && (forall i :: 0 <= i < |x| ==> x[i] == 'x')
    ensures forall i :: 0 <= i < |ap| ==> |ap[i]| < |x|
  {
    if ap == [] then "x"
    else
      var y := Longer(ap[1..]);
      if |ap[0]| < |y| then y else seq(|ap[0]| + 1, _ => 'x')
  }

  /** An uncovered request has an instance the ACL does not match. */
  lemma {:induction false} Uncovered(ap: seq<string>, rp: seq<string>, x: string)
    requires !LevelsCover(ap, rp) && x !in ap
    requires x != "+" && x != "#"
    ensures !Match(ap, Instance(rp, x, [])) || !Match(ap, Instance(rp, x, [x]))
    decreases |ap|
  {
    if ap != [] && rp != [] && rp[0] != "#" && LevelsStep(ap[0], rp[0]) {
      Uncovered(ap[1..], rp[1..], x);
      assert Instance(rp, x, [])[1..] == Instance(rp[1..], x, []);
      assert Instance(rp, x, [x])[1..] == Instance(rp[1..], x, [x]);
    } else if ap != [] && rp != [] {
      assert ap[0] in ap;
    }
  }

  predicate LevelsStep(a: string, r: string) {
    a == "+" || (r != "+" && a == r)
  }

  /** The two shapes the per-level check refuses although no topic tells the filters apart: "#" and
      "/#" both match at zero remaining levels, where there is no topic to publish to. */
  predicate Exceptional(ap: seq<string>, rp: seq<string>) {
    || (rp == ["#"] && ap == ["+", "#"])
    || (rp == ["", "#"] && |ap| == 3 && (ap[0] == "" || ap[0] == "+") && ap[1..] == ["+", "#"])
  }

  lemma ExceptionalContained(ap: seq<string>, rp: seq<string>, t: seq<string>)
    requires Exceptional(ap, rp) && TopicLevels(t) && MatchProtected(rp, t)
    ensures MatchProtected(ap, t)
  {
  }

  /** Among topics with a first level f, everything below f is matched only by '#' and "+/#". */
  lemma BelowAll(ap: seq<string>, x: string)
    requires ValidLevels(ap) && x !in ap && x != "+" && x != "#"
    requires Match(ap, [x]) && Match(ap, [x, x])
    ensures ap == ["#"] || ap == ["+", "#"]
  {
  }

  lemma ContainedImpliesCovers(ap: seq<string>, rp: seq<string>)
    requires LevelList(ap) && LevelList(rp) && ValidLevels(ap) && ValidLevels(rp) && rp != [""]
    requires LevelsContained(ap, rp) && !Covers(ap, rp)
    ensures Exceptional(ap, rp)
  {
    var x := Longer(ap + ["+"]);
    assert forall i :: 0 <= i < |ap| ==> (ap + ["+"])[i] == ap[i];
    assert x !in ap;
    assert (ap + ["+"])[|ap|] == "+" && |x| > 1;
    var long, short := Instance(rp, x, [x]), Instance(rp, x, []);
    InstanceMatches(rp, x, [x]);
    InstanceMatches(rp, x, []);
    InstancePlain(rp, x, [x]);
    InstancePlain(rp, x, []);
    assert long != [] && (long == [""] ==> rp == [""]) by {
      if |rp| > 1 && rp[0] != "#" {
        assert Instance(rp[1..], x, [x]) != [];
      }
    }
    assert TopicLevels(long) && MatchProtected(rp, long);
    assert MatchProtected(ap, long);
    assert !LevelsCover(ap, rp);
    Uncovered(ap, rp, x);
    assert !Match(ap, short);
    if short == [] || short == [""] {
      ShortInstance(rp, x);
      if rp == ["#"] {
        Everything(ap, rp, x);
      } else {
        EverythingBelow(ap, rp, x);
      }
    } else {
      assert TopicLevels(short) && MatchProtected(rp, short);
      assert false;
    }
  }

  /** Only "#" and "/#" have an instance that is no publishable topic. */
  lemma ShortInstance(rp: seq<string>, x: string)
    requires rp != [""] && |rp| > 0 && |x| > 0 && ValidLevels(rp)
    requires Instance(rp, x, []) == [] || Instance(rp, x, []) == [""]
    ensures rp == ["#"] || rp == ["", "#"]
  {
  }

  lemma Everything(ap: seq<string>, rp: seq<string>, x: string)
    requires |ap| > 0 && rp == ["#"] && LevelsContained(ap, rp) && ValidLevels(ap) && !Covers(ap, rp)
    requires x !in ap && PlainLevel(x) && |x| > 1 && x[0] == 'x'
    ensures ap == ["+", "#"]
  {
    assert TopicLevels([x]) && MatchProtected(rp, [x]);
    assert TopicLevels([x, x]) && MatchProtected(rp, [x, x]);
    BelowAll(ap, x);
  }

  lemma EverythingBelow(ap: seq<string>, rp: seq<string>, x: string)
    requires |ap| > 0 && rp == ["", "#"] && LevelsContained(ap, rp) && ValidLevels(ap) && !Covers(ap, rp)
    requires x !in ap && PlainLevel(x) && |x| > 1 && x[0] == 'x'
    ensures Exceptional(ap, rp)
  {
    assert rp[1..] == ["#"];
    assert TopicLevels(["", x]) && MatchProtected(rp, ["", x]);
    assert TopicLevels(["", x, x]) && MatchProtected(rp, ["", x, x]);
    assert ["", x][1..] == [x] && ["", x, x][1..] == [x, x];
    assert Match(ap, ["", x]) && Match(ap, ["", x, x]);
    assert ap[0] != "#";
    assert LevelsCover(["#"], rp[1..]);
    assert x !in ap[1..];
    BelowAll(ap[1..], x);
    assert ap == [ap[0]] + ap[1..];
  }

  // ---------------------------------------------------------------- theorems

  /** Whatever the strings, a covered request reaches no topic the ACL does not match. */
  lemma CoversIsSound(acl: string, request: string)
    requires Covers(Split(acl), Split(request))
    ensures Contained(acl, request)
  {
    forall topic: string | PublishTopic(topic) && MatchProtected(Split(request), Split(topic))
      ensures MatchProtected(Split(acl), Split(topic))
    {
      CoversProtected(Split(acl), Split(request), Split(topic));
    }
  }

  /** For valid filters the check decides containment exactly, up to the two exceptional shapes. */
  lemma CoversIffContained(acl: string, request: string)
    requires ValidFilter(acl) && ValidFilter(request)
    ensures Contained(acl, request) <==> Covers(Split(acl), Split(request)) || Exceptional(Split(acl), Split(request))
  {
    var ap, rp := Split(acl), Split(request);
    SplitIsLevelList(acl);
    SplitIsLevelList(request);
    JoinSplit(request);
    assert Join([""]) == "";
    ContainedByLevels(acl, request);
    if Covers(ap, rp) {
      CoversIsSound(acl, request);
    } else if Exceptional(ap, rp) {
      forall t | TopicLevels(t) && MatchProtected(rp, t) ensures MatchProtected(ap, t) {
        ExceptionalContained(ap, rp, t);
      }
    } else if LevelsContained(ap, rp) {
      ContainedImpliesCovers(ap, rp);
    }
  }

  lemma {:induction false} LevelsCoverIsMatch(ap: seq<string>, t: seq<string>)
    requires forall i :: 0 <= i < |t| ==> WildFree(t[i])
    ensures LevelsCover(ap, t) == Match(ap, t)
    decreases |ap|
  {
    if ap != [] && ap[0] != "#" && t != [] {
      assert WildFree(t[0]);
      assert t[0] != "" ==> !Wild(t[0][0]);
      LevelsCoverIsMatch(ap[1..], t[1..]);
    }
  }

  /** On a topic to publish to, coverage is protected matching. */
  lemma CoversTopicIsMatch(ap: seq<string>, t: seq<string>)
    requires |ap| > 0 && |t| > 0 && forall i :: 0 <= i < |t| ==> WildFree(t[i])
    ensures Covers(ap, t) == MatchProtected(ap, t)
  {
    LevelsCoverIsMatch(ap, t);
  }
}
