/** How a new session gets its title and description: the marker parser
    `parse_title_and_description`, and the separate rule `create_session`
    actually applies (first and second line of the reply, with a truncating
    fallback when the completion call fails). */
module Titles {
  import opened Wrappers
  import opened Text
  import opened Domain

  const TitleMarker: string := "타이틀"
  const DescriptionMarker: string := "설명"

  /** The two colon characters the pattern `[:：]` accepts. */
  predicate IsColon(c: char) {
    c == ':' || c == '：'
  }

  /** Whether `marker\s*[:：]\s*(.*)` matches at index `i`; if so, where the
      captured group begins. */
  function MatchAt(s: string, marker: string, i: nat): (r: Option<nat>)
    requires i <= |s|
    ensures r.Some? ==> OccursAt(marker, s, i) && i + |marker| < r.value <= |s|
    ensures r.Some? ==> r.value == |s| || !IsSpace(s[r.value])
  {
    if OccursAt(marker, s, i) then
      var j := SkipSpace(s, i + |marker|);
      if j < |s| && IsColon(s[j]) then Some(SkipSpace(s, j + 1)) else None
    else None
  }

  /** The pattern matches at `i` exactly when the marker occurs there and is
      followed by optional whitespace and a colon; the group then starts
      after that colon and the whitespace following it. */
  lemma MatchAtMeans(s: string, marker: string, i: nat)
    requires i <= |s|
    ensures MatchAt(s, marker, i).Some? ==>
              exists j :: i + |marker| <= j < MatchAt(s, marker, i).value && IsColon(s[j])
                && AllSpace(s[i + |marker|..j]) && AllSpace(s[j + 1..MatchAt(s, marker, i).value])
    ensures OccursAt(marker, s, i) && MatchAt(s, marker, i).None? ==>
              forall j :: i + |marker| <= j < |s| && AllSpace(s[i + |marker|..j]) ==> !IsColon(s[j])
  {
    if OccursAt(marker, s, i) {
      var n := SkipSpace(s, i + |marker|);
      assert AllSpace(s[i + |marker|..n]);
      if n < |s| && IsColon(s[n]) {
        var v := SkipSpace(s, n + 1);
        assert AllSpace(s[n + 1..v]);
      } else {
        forall j | i + |marker| <= j < |s| && AllSpace(s[i + |marker|..j]) ensures !IsColon(s[j]) {
        }
      }
    }
  }

  /** `re.search`: the leftmost index at or after `from` where the pattern matches. */
  function SearchFrom(s: string, marker: string, from: nat): (r: Option<nat>)
    requires from <= |s|
    ensures r.Some? ==> from <= r.value <= |s| && MatchAt(s, marker, r.value).Some?
    ensures r.Some? ==> forall k :: from <= k < r.value ==> MatchAt(s, marker, k).None?
    ensures r.None? ==> forall k :: from <= k <= |s| ==> MatchAt(s, marker, k).None?
    decreases |s| - from
  {
    if MatchAt(s, marker, from).Some? then Some(from)
    else if from == |s| then None
    else SearchFrom(s, marker, from + 1)
  }

  /** End of the line that contains index `k` (what `.*` consumes). */
  function LineEnd(s: string, k: nat): (e: nat)
    requires k <= |s|
    ensures k <= e <= |s|
    ensures '\n' !in s[k..e]
    ensures e == |s| || s[e] == '\n'
  {
    match IndexOfFrom(s, '\n', k)
    case None => |s|
    case Some(e) =>
      assert forall x :: 0 <= x < e - k ==> s[k..e][x] == s[k + x];
      e
  }

  /** `m.group(1).strip()` for the leftmost match, or "" when there is none. */
  function Field(s: string, marker: string): (r: string)
    ensures '\n' !in r
    ensures Stripped(r)
    ensures r != [] ==> exists i: nat :: i <= |s| && MatchAt(s, marker, i).Some?
  {
    match SearchFrom(s, marker, 0)
    case None => ""
    case Some(i) =>
      var k := MatchAt(s, marker, i).value;
      assert k <= |s| by { assert k == SkipSpace(s, SkipSpace(s, i + |marker|) + 1); }
      var line := s[k..LineEnd(s, k)];
      StripKeepsLine(line);
      Strip(line)
  }

  /** `parse_title_and_description`: the title after `타이틀`, the
      description after `설명`, each found on its own. */
  function ParseTitleAndDescription(response: string): (r: (string, string))
    ensures Stripped(r.0) && '\n' !in r.0 && (r.0 != [] ==> IsInfix(TitleMarker, response))
    ensures Stripped(r.1) && '\n' !in r.1 && (r.1 != [] ==> IsInfix(DescriptionMarker, response))
  {
    (Field(response, TitleMarker), Field(response, DescriptionMarker))
  }

  /** A marker that does not occur at all yields an empty component. */
  lemma NoMarkerNoField(s: string, marker: string)
    requires !IsInfix(marker, s)
    ensures Field(s, marker) == ""
  {
    forall i: nat | i <= |s| ensures MatchAt(s, marker, i).None? {
      assert !OccursAt(marker, s, i);
    }
  }

  /** With neither marker in the response both components are empty. */
  lemma ParseWithoutMarkers(response: string)
    requires !IsInfix(TitleMarker, response) && !IsInfix(DescriptionMarker, response)
    ensures ParseTitleAndDescription(response) == ("", "")
  {
    NoMarkerNoField(response, TitleMarker);
    NoMarkerNoField(response, DescriptionMarker);
  }

  /** A line `marker: value` at the start of the response yields `value`. */
  lemma FieldOfLeadingLine(marker: string, value: string, rest: string)
    requires |marker| > 0 && '\n' !in marker
    requires Stripped(value) && value != [] && '\n' !in value
    requires rest == [] || rest[0] == '\n'
    ensures Field(marker + ": " + value + rest, marker) == value
  {
    var s := marker + ": " + value + rest;
    assert [] + marker + ": " + value + rest == s;
    FieldOfLine([], marker, value, rest);
  }

  /** The pattern matches where `marker: ` is followed by a non-blank
      character, and the group starts at that character. */
  lemma MatchHere(s: string, marker: string, p: nat)
    requires p + |marker| + 2 < |s| && OccursAt(marker, s, p)
    requires s[p + |marker|] == ':' && s[p + |marker| + 1] == ' ' && !IsSpace(s[p + |marker| + 2])
    ensures MatchAt(s, marker, p) == Some(p + |marker| + 2)
  {
    var m := |marker|;
    assert SkipSpace(s, p + m) == p + m;
    assert SkipSpace(s, p + m + 2) == p + m + 2;
    assert SkipSpace(s, p + m + 1) == p + m + 2;
  }

  /** The pattern matches nowhere in leading whole lines that do not contain
      the marker. */
  lemma NoMatchBefore(s: string, marker: string, p: nat)
    requires p <= |s| && |marker| > 0 && '\n' !in marker
    requires p == 0 || (s[p - 1] == '\n' && !IsInfix(marker, s[..p]))
    ensures forall i: nat :: i < p ==> MatchAt(s, marker, i).None?
  {
    var m := |marker|;
    forall i: nat | i < p ensures MatchAt(s, marker, i).None? {
      if i + m <= p {
        assert s[i..i + m] == s[..p][i..i + m];
        assert !OccursAt(marker, s[..p], i);
      } else if i + m <= |s| {
        assert s[i..i + m][p - 1 - i] == s[p - 1];
        assert marker[p - 1 - i] in marker;
      }
    }
  }

  /** `.*` stops at the first newline or at the end of the text. */
  lemma LineEndAt(s: string, k: nat, e: nat)
    requires k <= e <= |s| && '\n' !in s[k..e] && (e == |s| || s[e] == '\n')
    ensures LineEnd(s, k) == e
  {
    var q := LineEnd(s, k);
  }

  /** Where the parts of `before + marker + ": " + value + rest` lie. */
  lemma LineLayout(before: string, marker: string, value: string, rest: string)
    requires value != []
    ensures var s := before + marker + ": " + value + rest;
            var p, m := |before|, |marker|;
            && |s| == p + m + 2 + |value| + |rest|
            && s[..p] == before && s[p..p + m] == marker
            && s[p + m] == ':' && s[p + m + 1] == ' ' && s[p + m + 2] == value[0]
            && s[p + m + 2..p + m + 2 + |value|] == value
            && (rest == [] || s[p + m + 2 + |value|] == rest[0])
  {
    var s := before + marker + ": " + value + rest;
    var p, m := |before|, |marker|;
    assert s[..p] == before;
    assert s[p..p + m] == marker;
    assert s[p + m + 2..p + m + 2 + |value|] == value;
  }

  /** When the leftmost match is at `p` and its group starts with `value`
      on a line of its own, the field is `value`. */
  lemma FieldAt(s: string, marker: string, p: nat, k: nat, value: string)
    requires p <= |s| && SearchFrom(s, marker, 0) == Some(p) && MatchAt(s, marker, p) == Some(k)
    requires k + |value| <= |s| && s[k..k + |value|] == value
    requires k + |value| == |s| || s[k + |value|] == '\n'
    requires Stripped(value) && '\n' !in value
    ensures Field(s, marker) == value
  {
    FieldOfMatch(s, marker, p);
    LineEndAt(s, k, k + |value|);
    StripOfStripped(value);
  }

  /** The search finds the first index where the pattern matches. */
  lemma SearchFinds(s: string, marker: string, p: nat)
    requires p <= |s| && MatchAt(s, marker, p).Some?
    requires forall i: nat :: i < p ==> MatchAt(s, marker, i).None?
    ensures SearchFrom(s, marker, 0) == Some(p)
  {
  }

  /** The field of the leftmost match at `p` is the rest of that line, stripped. */
  lemma FieldOfMatch(s: string, marker: string, p: nat)
    requires p <= |s| && SearchFrom(s, marker, 0) == Some(p)
    ensures MatchAt(s, marker, p).value <= |s|
    ensures Field(s, marker) == Strip(s[MatchAt(s, marker, p).value..LineEnd(s, MatchAt(s, marker, p).value)])
  {
    var k := MatchAt(s, marker, p).value;
    assert k == SkipSpace(s, SkipSpace(s, p + |marker|) + 1);
  }

  /** A line `marker: value` yields `value` when the text before it is
      whole lines that do not contain the marker. */
  lemma FieldOfLine(before: string, marker: string, value: string, rest: string)
    requires |marker| > 0 && '\n' !in marker
    requires Stripped(value) && value != [] && '\n' !in value
    requires rest == [] || rest[0] == '\n'
    requires before == [] || (before[|before| - 1] == '\n' && !IsInfix(marker, before))
    ensures Field(before + marker + ": " + value + rest, marker) == value
  {
    var s := before + marker + ": " + value + rest;
    var p := |before|;
    LineLayout(before, marker, value, rest);
    MatchHere(s, marker, p);
    NoMatchBefore(s, marker, p);
    SearchFinds(s, marker, p);
    FieldAt(s, marker, p, p + |marker| + 2, value);
  }

  /** Formatting a title and a description in the marker format and parsing
      them back gives them unchanged, provided the description marker does not
      already occur on the title line. */
  lemma ParseRoundTrip(title: string, description: string)
    requires Stripped(title) && title != [] && '\n' !in title
    requires Stripped(description) && description != [] && '\n' !in description
    requires !IsInfix(DescriptionMarker, TitleMarker + ": " + title + "\n")
    ensures ParseTitleAndDescription(TitleMarker + ": " + title + "\n" + DescriptionMarker + ": " + description)
            == (title, description)
  {
    var s := TitleMarker + ": " + title + "\n" + DescriptionMarker + ": " + description;
    assert s == TitleMarker + ": " + title + ("\n" + DescriptionMarker + ": " + description);
    FieldOfLeadingLine(TitleMarker, title, "\n" + DescriptionMarker + ": " + description);
    var before := TitleMarker + ": " + title + "\n";
    assert s == before + DescriptionMarker + ": " + description + [];
    FieldOfLine(before, DescriptionMarker, description, []);
  }

  // ---------------------------------------------------------------------
  // The rule create_session applies

  const TitleSystemPrompt: string :=
    "당신은 대화의 맥락을 이해하고 적절한 제목과 설명을 생성하는 AI 어시스턴트입니다."
  const TitleRequestPrefix: string :=
    "다음 대화의 제목과 설명을 생성해주세요. 제목은 20자 이내로, 설명은 100자 이내로 작성해주세요. 대화 내용: "
  const TitleLabel: string := "제목:"
  const DescriptionLabel: string := "설명:"
  const TitleLimit: nat := 20
  const DescriptionLimit: nat := 100

  /** The two-turn prompt `create_session` sends to ask for a title. */
  function TitlePrompt(content: string): (p: seq<Turn>)
    ensures |p| == 2 && p[0].role == System && p[1].role == User
    ensures p[1].content == TitleRequestPrefix + content
  {
    [Turn(System, TitleSystemPrompt), Turn(User, TitleRequestPrefix + content)]
  }

  /** Title and description when the completion call fails:
      `content[:20]` and `content[:100]`. */
  function Fallback(content: string): (r: (string, string))
    ensures |r.0| <= |content| && |r.1| <= |content|
    ensures r.0 == content[..|r.0|] && r.1 == content[..|r.1|]
    ensures |r.0| <= TitleLimit && |r.1| <= DescriptionLimit
    ensures |r.0| == TitleLimit || r.0 == content
    ensures |r.1| == DescriptionLimit || r.1 == content
  {
    (Take(content, TitleLimit), Take(content, DescriptionLimit))
  }

  /** Title and description read from a successful reply: line 1 of the
      stripped reply without `제목:`, line 2 without `설명:`, or
      `content[:100]` when there is no second line. */
  function FromReply(content: string, reply: string): (r: (string, string))
    ensures Stripped(r.0) && '\n' !in r.0
    ensures '\n' !in Strip(reply) ==> r.1 == Take(content, DescriptionLimit)
    ensures '\n' in Strip(reply) ==> Stripped(r.1) && '\n' !in r.1
  {
    var lines := Lines(Strip(reply));
    SingleLineIff(Strip(reply));
    var title := Strip(RemoveAll(lines[0], TitleLabel));
    var description :=
      if |lines| > 1 then Strip(RemoveAll(lines[1], DescriptionLabel))
      else Take(content, DescriptionLimit);
    assert lines[0] in lines;
    assert |lines| > 1 ==> lines[1] in lines;
    RemovalKeepsLine(lines[0], TitleLabel);
    if |lines| > 1 then
      RemovalKeepsLine(lines[1], DescriptionLabel);
      StripKeepsLine(RemoveAll(lines[0], TitleLabel));
      StripKeepsLine(RemoveAll(lines[1], DescriptionLabel));
      (title, description)
    else
      StripKeepsLine(RemoveAll(lines[0], TitleLabel));
      (title, description)
  }

  /** The title and description `create_session` stores: read from the
      reply when the completion call succeeds, the fallback otherwise. */
  function TitleAndDescription(content: string, outcome: Completion): (r: (string, string))
    ensures outcome.Failed? ==>
              && |r.0| <= |content| && |r.1| <= |content|
              && r.0 == content[..|r.0|] && r.1 == content[..|r.1|]
              && |r.0| <= TitleLimit && |r.1| <= DescriptionLimit
              && (|r.0| == TitleLimit || r.0 == content)
              && (|r.1| == DescriptionLimit || r.1 == content)
    ensures outcome.Replied? ==>
              && Stripped(r.0) && '\n' !in r.0
              && ((Stripped(r.1) && '\n' !in r.1) || r.1 == Take(content, DescriptionLimit))
  {
    match outcome
    case Replied(text) => FromReply(content, text)
    case Failed(_) => Fallback(content)
  }

  /** Removing a label from a line leaves a line. */
  lemma {:induction false} RemovalKeepsLine(s: string, pat: string)
    requires |pat| > 0 && '\n' !in s
    ensures '\n' !in RemoveAll(s, pat)
    decreases |s|
  {
    if |s| < |pat| {
    } else if s[..|pat|] == pat {
      assert forall x :: x in s[|pat|..] ==> x in s;
      RemovalKeepsLine(s[|pat|..], pat);
    } else {
      assert forall x :: x in s[1..] ==> x in s;
      RemovalKeepsLine(s[1..], pat);
    }
  }

  /** Stripping a line leaves a line. */
  lemma StripKeepsLine(s: string)
    requires '\n' !in s
    ensures '\n' !in Strip(s)
  {
    var r := Strip(s);
    var a: nat :| OccursAt(r, s, a) && AllSpace(s[..a]) && AllSpace(s[a + |r|..]);
    forall x | 0 <= x < |r| ensures r[x] != '\n' {
      assert r[x] == s[a + x];
    }
  }

  /** A stripped two-line reply: the title comes from the first line and
      the description from the second. */
  lemma FromTwoLines(content: string, l1: string, l2: string)
    requires '\n' !in l1 && '\n' !in l2 && Stripped(l1 + "\n" + l2)
    ensures FromReply(content, l1 + "\n" + l2)
            == (Strip(RemoveAll(l1, TitleLabel)), Strip(RemoveAll(l2, DescriptionLabel)))
  {
    var reply := l1 + "\n" + l2;
    StripOfStripped(reply);
    LinesOfTwo(l1, l2);
  }

  lemma LinesOfTwo(l1: string, l2: string)
    requires '\n' !in l1 && '\n' !in l2
    ensures Lines(l1 + "\n" + l2) == [l1, l2]
  {
    var reply := l1 + "\n" + l2;
    assert reply[|l1|] == '\n';
    assert forall k :: 0 <= k < |l1| ==> reply[k] == l1[k];
    assert IndexOfFrom(reply, '\n', 0) == Some(|l1|);
    assert reply[..|l1|] == l1 && reply[|l1| + 1..] == l2;
    assert IndexOfFrom(l2, '\n', 0) == None;
  }

  /** A line `label value`: removing the label and stripping gives `value`
      back when the label does not occur in `value` itself. */
  lemma LabelledLine(tag: string, value: string)
    requires |tag| > 0 && tag[0] != ' ' && !IsInfix(tag, value)
    requires Stripped(value) && value != []
    ensures Strip(RemoveAll(tag + " " + value, tag)) == value
  {
    assert tag + " " + value == tag + (" " + value);
    RemoveLeading(tag, " " + value);
    AbsentCons(' ', tag, value);
    assert [' '] + value == " " + value;
    RemoveAbsent(" " + value, tag);
    assert " " + value + [] == " " + value;
    StripPadded(" ", value, []);
  }

  /** A reply written in the labelled format `제목: title\n설명: description`
      gives back that title and that description. */
  lemma FromReplyRoundTrip(content: string, title: string, description: string)
    requires Stripped(title) && title != [] && '\n' !in title && !IsInfix(TitleLabel, title)
    requires Stripped(description) && description != [] && '\n' !in description
    requires !IsInfix(DescriptionLabel, description)
    ensures FromReply(content, TitleLabel + " " + title + "\n" + DescriptionLabel + " " + description)
            == (title, description)
  {
    var l1 := TitleLabel + " " + title;
    var l2 := DescriptionLabel + " " + description;
    assert TitleLabel + " " + title + "\n" + DescriptionLabel + " " + description == l1 + "\n" + l2;
    assert '\n' !in l1 by { assert forall k :: 0 <= k < |title| ==> l1[k + 4] == title[k]; }
    assert '\n' !in l2 by { assert forall k :: 0 <= k < |description| ==> l2[k + 4] == description[k]; }
    var reply := l1 + "\n" + l2;
    assert reply[0] == '제' && reply[|reply| - 1] == description[|description| - 1];
    FromTwoLines(content, l1, l2);
    LabelledLine(TitleLabel, title);
    LabelledLine(DescriptionLabel, description);
  }

  /** The first line `타이틀: title` is a stripped line without `제목:`. */
  lemma MarkerLine(title: string)
    requires Stripped(title) && title != [] && '\n' !in title && '제' !in title
    ensures var l1 := TitleMarker + ": " + title;
            '\n' !in l1 && Stripped(l1) && !IsInfix(TitleLabel, l1)
  {
    var l1 := TitleMarker + ": " + title;
    assert forall k :: 0 <= k < |title| ==> l1[k + 5] == title[k];
    assert forall k :: 0 <= k < 5 ==> l1[k] != '\n' && l1[k] != '제';
    assert '제' !in l1;
    AbsentHead(TitleLabel, l1);
    assert l1[|l1| - 1] == title[|title| - 1];
  }

  /** The second line `설명: description` is a line. */
  lemma DescriptionLine(description: string)
    requires '\n' !in description
    ensures DescriptionMarker + ": " + description == DescriptionLabel + " " + description
    ensures '\n' !in DescriptionLabel + " " + description
  {
    var l2 := DescriptionLabel + " " + description;
    assert forall k :: 0 <= k < |description| ==> l2[k + 4] == description[k];
  }

  /** `create_session` keeps a `타이틀:` prefix in the title: only `제목:`
      is removed from the first line. */
  lemma CreateSessionKeepsMarker(content: string, title: string, description: string)
    requires Stripped(title) && title != [] && '\n' !in title && '제' !in title
    requires Stripped(description) && description != [] && '\n' !in description
    requires !IsInfix(DescriptionLabel, description)
    ensures FromReply(content, TitleMarker + ": " + title + "\n" + DescriptionMarker + ": " + description)
            == (TitleMarker + ": " + title, description)
  {
    var l1 := TitleMarker + ": " + title;
    var l2 := DescriptionLabel + " " + description;
    MarkerLine(title);
    DescriptionLine(description);
    assert TitleMarker + ": " + title + "\n" + DescriptionMarker + ": " + description == l1 + "\n" + l2;
    var reply := l1 + "\n" + l2;
    assert reply[0] == l1[0] && reply[|reply| - 1] == description[|description| - 1];
    FromTwoLines(content, l1, l2);
    assert FromReply(content, reply) == (Strip(RemoveAll(l1, TitleLabel)), Strip(RemoveAll(l2, DescriptionLabel)));
    assert Strip(RemoveAll(l1, TitleLabel)) == l1 by {
      RemoveAbsent(l1, TitleLabel);
      StripOfStripped(l1);
    }
    assert Strip(RemoveAll(l2, DescriptionLabel)) == description by {
      LabelledLine(DescriptionLabel, description);
    }
  }

  /** The two rules disagree on a reply in the marker format:
      `parse_title_and_description` would take the text after `타이틀:` as
      the title, `create_session` stores the whole first line. */
  lemma RulesDisagreeOnMarkerFormat(content: string, title: string, description: string)
    requires Stripped(title) && title != [] && '\n' !in title && '제' !in title
    requires Stripped(description) && description != [] && '\n' !in description
    requires !IsInfix(DescriptionLabel, description)
    requires !IsInfix(DescriptionMarker, TitleMarker + ": " + title + "\n")
    ensures ParseTitleAndDescription(TitleMarker + ": " + title + "\n" + DescriptionMarker + ": " + description).0
            != FromReply(content, TitleMarker + ": " + title + "\n" + DescriptionMarker + ": " + description).0
  {
    CreateSessionKeepsMarker(content, title, description);
    ParseRoundTrip(title, description);
    assert |TitleMarker + ": " + title| > |title|;
  }

  /** The words of the Greeting reply are stripped single lines without
      either label. */
  lemma GreetingWords(t: string, d: string)
    requires t == "Greeting" && d == "A greeting"
    ensures Stripped(t) && t != [] && '\n' !in t && '제' !in t
    ensures Stripped(d) && d != [] && '\n' !in d && !IsInfix(DescriptionLabel, d)
  {
    assert t[0] == 'G' && t[|t| - 1] == 'g';
    assert d[0] == 'A' && d[|d| - 1] == 'g';
    assert '설' !in d;
    AbsentHead(DescriptionLabel, d);
  }

  /** The Greeting reply is written in the marker format. */
  lemma GreetingReply(reply: string, t: string, d: string)
    requires reply == "타이틀: Greeting\n설명: A greeting"
    requires t == "Greeting" && d == "A greeting"
    ensures reply == TitleMarker + ": " + t + "\n" + DescriptionMarker + ": " + d
  {
  }

  /** The Greeting reply as `create_session` reads it: the reply
      "타이틀: Greeting\n설명: A greeting" gives the title "타이틀: Greeting"
      (not "Greeting") and the description "A greeting". */
  lemma GreetingExample(reply: string, t: string, d: string)
    requires reply == "타이틀: Greeting\n설명: A greeting"
    requires t == "Greeting" && d == "A greeting"
    ensures TitleAndDescription("hello", Replied(reply)) == (TitleMarker + ": " + t, d)
  {
    GreetingWords(t, d);
    GreetingReply(reply, t, d);
    CreateSessionKeepsMarker("hello", t, d);
  }

  /** The same reply through `parse_title_and_description` gives "Greeting". */
  lemma GreetingParsed(reply: string, t: string, d: string)
    requires reply == "타이틀: Greeting\n설명: A greeting"
    requires t == "Greeting" && d == "A greeting"
    ensures ParseTitleAndDescription(reply) == (t, d)
  {
    GreetingWords(t, d);
    GreetingReply(reply, t, d);
    var line := TitleMarker + ": " + t + "\n";
    assert '설' !in line by {
      assert forall k :: 0 <= k < |t| ==> line[k + 5] == t[k];
    }
    AbsentHead(DescriptionMarker, line);
    ParseRoundTrip(t, d);
  }

  /** A failed call on the first message "hello" gives "hello" for both. */
  lemma HelloFallback(cause: string)
    ensures TitleAndDescription("hello", Failed(cause)) == ("hello", "hello")
  {
  }

  /** On failure the title is a prefix of the description, which is a
      prefix of the first message. */
  lemma FallbackNested(content: string)
    ensures Fallback(content).1 <= content
    ensures Fallback(content).0 <= Fallback(content).1
  {
  }
}
