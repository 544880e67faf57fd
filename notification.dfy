/** The message built by `send_notification`: a fixed heading, the action's date, title and
    key, and, when the detail page mentions a keyword, the "entity" lines: every line of the
    page text that mentions a keyword, each followed by the non-blank lines up to two before
    and two after it. At most ten entries are listed, then a trailer says there are more. */
module Notification {
  import opened Text
  import opened Relevance
  import opened Listing

  const Heading: string := "OFAC更新提醒 - 中国/香港实体\n\n"
  const EntityHeading: string := "相关实体信息:\n"
  const MoreEntities: string := "...以及更多实体"
  const MaxListed: nat := 10

  /** `any(keyword.lower() in line.lower() for keyword in keywords)` */
  predicate LineMentions(line: string, keywords: seq<string>)
  {
    AnyKeyword(keywords, Lower(line))
  }

  /** The context window of line i is `range(max(0, i - 2), min(n, i + 3))`. */
  function WindowStart(i: int): int { if i - 2 < 0 then 0 else i - 2 }

  function WindowEnd(n: int, i: int): int { if n < i + 3 then n else i + 3 }

  predicate InWindow(n: int, i: int, j: int)
  {
    WindowStart(i) <= j < WindowEnd(n, i)
  }

  /** The context entries of line i contributed by window positions before `hi`. */
  function Context(lines: seq<string>, i: int, hi: int): seq<string>
    requires 0 <= i < |lines| && hi <= |lines|
    decreases hi - WindowStart(i)
  {
    if hi <= WindowStart(i) then []
    else
      Context(lines, i, hi - 1) +
      (if hi - 1 != i && Strip(lines[hi - 1]) != "" then ["  " + Strip(lines[hi - 1])] else [])
  }

  /** What line i contributes: itself, stripped, and its context, when it mentions a keyword. */
  function Block(lines: seq<string>, keywords: seq<string>, i: int): seq<string>
    requires 0 <= i < |lines|
  {
    if LineMentions(lines[i], keywords) then [Strip(lines[i])] + Context(lines, i, WindowEnd(|lines|, i))
    else []
  }

  /** The entries contributed by the first n lines. */
  function EntitiesUpTo(lines: seq<string>, keywords: seq<string>, n: int): seq<string>
    requires 0 <= n <= |lines|
  {
    if n == 0 then [] else EntitiesUpTo(lines, keywords, n - 1) + Block(lines, keywords, n - 1)
  }

  function Entities(lines: seq<string>, keywords: seq<string>): seq<string>
  {
    EntitiesUpTo(lines, keywords, |lines|)
  }

  /** Lines 216-224: the nested loops that collect the entries. */
  method ExtractEntities(lines: seq<string>, keywords: seq<string>) returns (entities: seq<string>)
    ensures entities == Entities(lines, keywords)
  {
    entities := [];
    for i := 0 to |lines|
      invariant entities == EntitiesUpTo(lines, keywords, i)
    {
      var line := lines[i];
      if LineMentions(line, keywords) {
        var context := CollectContext(lines, i);
        entities := entities + ([Strip(line)] + context);
      }
    }
  }

  /** The inner loop of lines 218-222: the non-blank neighbours of line i, indented. */
  method CollectContext(lines: seq<string>, i: int) returns (context: seq<string>)
    requires 0 <= i < |lines|
    ensures context == Context(lines, i, WindowEnd(|lines|, i))
  {
    context := [];
    for j := WindowStart(i) to WindowEnd(|lines|, i)
      invariant context == Context(lines, i, j)
    {
      var neighbour := Strip(lines[j]);
      if j != i && neighbour != "" {
        context := context + ["  " + neighbour];
      }
    }
  }

  // ---------------------------------------------------------------------------
  // Which entries there are

  /** `e` is the entry of window position j of line i. */
  predicate ContextEntry(lines: seq<string>, i: int, j: int, e: string)
  {
    0 <= j < |lines| && InWindow(|lines|, i, j) && j != i && Strip(lines[j]) != "" && e == "  " + Strip(lines[j])
  }

  /** `e` is an entry that line i contributes. */
  ghost predicate EntryOf(lines: seq<string>, keywords: seq<string>, i: int, e: string)
  {
    0 <= i < |lines| && LineMentions(lines[i], keywords) &&
    (e == Strip(lines[i]) || exists j :: ContextEntry(lines, i, j, e))
  }

  lemma {:induction false} ContextMembers(lines: seq<string>, i: int, hi: int, e: string)
    requires 0 <= i < |lines| && hi <= WindowEnd(|lines|, i)
    ensures e in Context(lines, i, hi) <==> exists j :: j < hi && ContextEntry(lines, i, j, e)
    decreases hi - WindowStart(i)
  {
    if hi > WindowStart(i) {
      ContextMembers(lines, i, hi - 1, e);
      if exists j :: j < hi - 1 && ContextEntry(lines, i, j, e) {
        var j :| j < hi - 1 && ContextEntry(lines, i, j, e);
        assert j < hi && ContextEntry(lines, i, j, e);
      }
      forall j | j < hi && ContextEntry(lines, i, j, e) && j < hi - 1
        ensures exists j' :: j' < hi - 1 && ContextEntry(lines, i, j', e)
      {
      }
      if hi - 1 != i && Strip(lines[hi - 1]) != "" && e == "  " + Strip(lines[hi - 1]) {
        assert ContextEntry(lines, i, hi - 1, e);
      }
    }
  }

  lemma BlockMembers(lines: seq<string>, keywords: seq<string>, i: int, e: string)
    requires 0 <= i < |lines|
    ensures e in Block(lines, keywords, i) <==> EntryOf(lines, keywords, i, e)
  {
    ContextMembers(lines, i, WindowEnd(|lines|, i), e);
    if EntryOf(lines, keywords, i, e) && e != Strip(lines[i]) {
      var j :| ContextEntry(lines, i, j, e);
      assert j < WindowEnd(|lines|, i);
    }
  }

  lemma {:induction false} EntryInEntities(lines: seq<string>, keywords: seq<string>, n: int, i: int, e: string)
    requires 0 <= i < n <= |lines| && e in Block(lines, keywords, i)
    ensures e in EntitiesUpTo(lines, keywords, n)
    decreases n
  {
    var prev := EntitiesUpTo(lines, keywords, n - 1);
    assert EntitiesUpTo(lines, keywords, n) == prev + Block(lines, keywords, n - 1);
    if i < n - 1 {
      EntryInEntities(lines, keywords, n - 1, i, e);
      assert e in prev;
    }
  }

  lemma {:induction false} EntitySource(lines: seq<string>, keywords: seq<string>, n: int, e: string) returns (i: int)
    requires 0 <= n <= |lines| && e in EntitiesUpTo(lines, keywords, n)
    ensures 0 <= i < n && e in Block(lines, keywords, i)
    decreases n
  {
    var prev := EntitiesUpTo(lines, keywords, n - 1);
    assert EntitiesUpTo(lines, keywords, n) == prev + Block(lines, keywords, n - 1);
    if e in prev {
      i := EntitySource(lines, keywords, n - 1, e);
    } else {
      i := n - 1;
    }
  }

  /** The entries are exactly the stripped keyword lines and the stripped, indented, non-blank
      lines within two positions of a keyword line (other than that line itself). */
  lemma EntitiesMembers(lines: seq<string>, keywords: seq<string>, e: string)
    ensures e in Entities(lines, keywords) <==> exists i :: EntryOf(lines, keywords, i, e)
  {
    if e in Entities(lines, keywords) {
      var i := EntitySource(lines, keywords, |lines|, e);
      BlockMembers(lines, keywords, i, e);
    }
    if exists i :: EntryOf(lines, keywords, i, e) {
      var i :| EntryOf(lines, keywords, i, e);
      BlockMembers(lines, keywords, i, e);
      EntryInEntities(lines, keywords, |lines|, i, e);
    }
  }

  /** Entries of lines without line breaks have none either. */
  lemma {:induction false} EntitiesNoLineBreak(lines: seq<string>, keywords: seq<string>, n: int)
    requires 0 <= n <= |lines|
    requires forall k :: 0 <= k < |lines| ==> '\n' !in lines[k]
    ensures forall k :: 0 <= k < |EntitiesUpTo(lines, keywords, n)| ==> '\n' !in EntitiesUpTo(lines, keywords, n)[k]
    decreases n
  {
    if n > 0 {
      EntitiesNoLineBreak(lines, keywords, n - 1);
      var es := EntitiesUpTo(lines, keywords, n);
      forall k | 0 <= k < |es| ensures '\n' !in es[k] {
        var e := es[k];
        assert e in es;
        var i := EntitySource(lines, keywords, n, e);
        BlockMembers(lines, keywords, i, e);
        StripSpec(lines[i]);
        if e != Strip(lines[i]) {
          var j :| ContextEntry(lines, i, j, e);
          StripSpec(lines[j]);
          assert e == "  " + Strip(lines[j]);
        }
      }
    }
  }

  // ---------------------------------------------------------------------------
  // The message

  function Take(s: seq<string>, n: nat): seq<string>
  {
    if |s| <= n then s else s[..n]
  }

  /** Lines 226-229: the entity part of the message. */
  function EntitySection(entities: seq<string>): string
  {
    if entities == [] then ""
    else
      EntityHeading + Join(Take(entities, MaxListed), '\n')
      + (if |entities| > MaxListed then "\n" + MoreEntities else "")
  }

  /** The entity part is empty exactly when there are no entries; otherwise, after its heading,
      its lines are the first ten entries, then the trailer line exactly when there are more. */
  lemma EntitySectionLines(entities: seq<string>)
    requires forall k :: 0 <= k < |entities| ==> '\n' !in entities[k]
    ensures entities == [] <==> EntitySection(entities) == ""
    ensures entities != [] ==>
      EntityHeading <= EntitySection(entities) &&
      Split(EntitySection(entities)[|EntityHeading|..], '\n') ==
        Take(entities, MaxListed) + (if |entities| > MaxListed then [MoreEntities] else [])
  {
    if entities != [] {
      var shown := Take(entities, MaxListed);
      var body := Join(shown, '\n');
      var section := EntitySection(entities);
      assert forall k :: 0 <= k < |shown| ==> '\n' !in shown[k] by {
        forall k | 0 <= k < |shown| ensures '\n' !in shown[k] {
          assert shown[k] == entities[k];
        }
      }
      if |entities| > MaxListed {
        JoinSnoc(shown, '\n', MoreEntities);
        assert section == EntityHeading + Join(shown + [MoreEntities], '\n');
        assert section[|EntityHeading|..] == Join(shown + [MoreEntities], '\n');
        SplitJoin(shown + [MoreEntities], '\n');
      } else {
        assert section[|EntityHeading|..] == body;
        SplitJoin(shown, '\n');
      }
    }
  }

  /** Lines 205-208: the part of the message that does not depend on the page. */
  function MessageHead(a: Action): string
  {
    Heading + "日期: " + a.date + "\n" + "标题: " + a.title + "\n" + "链接: " + a.fullUrl + "\n\n"
  }

  /** The whole message for an action whose detail page is `details`, where `text` is the
      plain text the HTML parser extracts from the page. */
  function Message(a: Action, details: string, text: string, keywords: seq<string>): string
  {
    MessageHead(a) + (if details == "" then "" else EntitySection(Entities(Split(text, '\n'), keywords)))
  }

  /** The message always opens with its fixed part; the rest lists the entries of the page text
      as one line each, the first ten of them, then the trailer line exactly when there are
      more than ten, and is empty when there are no entries. */
  lemma MessageShape(a: Action, details: string, text: string, keywords: seq<string>)
    requires details != ""
    ensures var m := Message(a, details, text, keywords);
      var es := Entities(Split(text, '\n'), keywords);
      MessageHead(a) <= m &&
      (es == [] <==> m == MessageHead(a)) &&
      (es != [] ==>
        Split(m[|MessageHead(a) + EntityHeading|..], '\n') ==
          Take(es, MaxListed) + (if |es| > MaxListed then [MoreEntities] else []))
  {
    var lines := Split(text, '\n');
    var es := Entities(lines, keywords);
    EntitiesNoLineBreak(lines, keywords, |lines|);
    EntitySectionLines(es);
    var m := Message(a, details, text, keywords);
    if es != [] {
      var sec := EntitySection(es);
      assert m == MessageHead(a) + sec;
      assert m[|MessageHead(a) + EntityHeading|..] == sec[|EntityHeading|..];
    }
  }

  /** Lines 233-241: the channel chosen by the configured method. Email reports what the mail
      transport answered, the SMS and WeChat placeholders report success, any other method
      reports failure. */
  function Dispatch(channel: string, mailAccepted: bool): (ok: bool)
    ensures channel == "email" ==> ok == mailAccepted
    ensures channel == "sms" || channel == "wechat" ==> ok
    ensures channel != "email" && channel != "sms" && channel != "wechat" ==> !ok
  {
    if channel == "email" then mailAccepted
    else if channel == "sms" then true
    else if channel == "wechat" then true
    else false
  }
}
