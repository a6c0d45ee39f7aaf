/** The message formatter of main.py: contest records rendered as the
    numbered, HTML-marked-up listing the bot sends. */
module Formatter {
  import opened PyText

  /** One contest record as decoded from the contest list. Every field is
      optional, as the formatter reads each one with `dict.get`; `None`
      means the key is absent (a key holding JSON null is not modelled).
      `parsedDate` stands for `_parsed_date`, read as text shown as it is;
      the `AttributeError` that `.isoformat()` raises on a decoded JSON
      value is not modelled. */
  datatype Contest = Contest(
    contest: Option<string>,
    parsedDate: Option<string>,
    date: Option<string>,
    startTime: Option<string>,
    time: Option<string>,
    endTime: Option<string>,
    platform: Option<string>,
    site: Option<string>,
    resource: Option<string>,
    url: Option<string>)

  const Title: string := "ALL CONTESTS"
  const NoContests: string := "❌ No contests available to show."

  function Repeat(c: char, n: nat): (r: string)
    ensures |r| == n && forall i :: 0 <= i < n ==> r[i] == c
  {
    if n == 0 then [] else Repeat(c, n - 1) + [c]
  }

  /** The reply for an empty list. */
  function NoneFound(title: string): string {
    "❌ " + title + " - none found."
  }

  /** The heading of a non-empty listing: the title with the count, a rule of
      forty '=' characters and a blank line. */
  function Header(title: string, count: nat): string {
    title + " (" + NatToString(count) + ")\n" + Repeat('=', 40) + "\n\n"
  }

  /** The contest name, "Unnamed" when the field is missing. */
  function NameOf(c: Contest): (r: string)
    ensures c.contest.Some? ==> r == c.contest.value
    ensures c.contest.None? ==> r == "Unnamed"
  {
    c.contest.GetOr("Unnamed")
  }

  /** The date shown: the parsed date when it is set, else the raw date,
      else "Unknown". */
  function DateOf(c: Contest): (r: string)
    ensures Truthy(c.parsedDate) ==> r == c.parsedDate.value
    ensures !Truthy(c.parsedDate) && c.date.Some? ==> r == c.date.value
    ensures !Truthy(c.parsedDate) && c.date.None? ==> r == "Unknown"
  {
    if Truthy(c.parsedDate) then c.parsedDate.value else c.date.GetOr("Unknown")
  }

  /** The time line: present exactly when the start time (or, failing that,
      the time field) is non-empty; the end time follows after " - " when it
      is non-empty. */
  function TimeLine(c: Contest): (r: string)
    ensures r == "" <==> !Truthy(c.startTime) && !Truthy(c.time)
    ensures r == "" || EndsInNewline(r)
    ensures r != "" ==>
              r == "⏰ " + (if Truthy(c.startTime) then c.startTime.value else c.time.value)
                   + (if Truthy(c.endTime) then " - " + c.endTime.value else "")
                   + "\n"
  {
    var st := Or(c.startTime, Or(c.time, ""));
    var et := Or(c.endTime, "");
    if st != "" then "⏰ " + st + (if et != "" then " - " + et else "") + "\n" else ""
  }

  /** The platform line: the first non-empty one of platform, site and
      resource, or no line at all when all three are empty. */
  function PlatformLine(c: Contest): (r: string)
    ensures r == "" <==> !Truthy(c.platform) && !Truthy(c.site) && !Truthy(c.resource)
    ensures r == "" || EndsInNewline(r)
    ensures Truthy(c.platform) ==> r == "📌 " + c.platform.value + "\n"
    ensures !Truthy(c.platform) && Truthy(c.site) ==> r == "📌 " + c.site.value + "\n"
    ensures !Truthy(c.platform) && !Truthy(c.site) && Truthy(c.resource) ==>
              r == "📌 " + c.resource.value + "\n"
  {
    var p := Or(c.platform, Or(c.site, Or(c.resource, "")));
    if p != "" then "📌 " + p + "\n" else ""
  }

  /** The link line, present exactly when the url is non-empty. */
  function LinkLine(c: Contest): (r: string)
    ensures r == "" <==> !Truthy(c.url)
    ensures r == "" || EndsInNewline(r)
    ensures r != "" ==> r == "🔗 <a href='" + c.url.value + "'>Link</a>\n"
  {
    if Truthy(c.url) then "🔗 <a href='" + c.url.value + "'>Link</a>\n" else ""
  }

  /** The bold first line of the block numbered `n`. */
  function Heading(n: nat, c: Contest): string {
    "<b>" + NatToString(n) + ". " + NameOf(c) + "</b>\n"
  }

  function DateLine(c: Contest): (r: string)
    ensures EndsInNewline(r)
  {
    "📅 " + DateOf(c) + "\n"
  }

  /** The block for the contest numbered `n`. */
  function Block(n: nat, c: Contest): string {
    Heading(n, c) + DateLine(c) + TimeLine(c) + PlatformLine(c) + LinkLine(c) + "\n"
  }

  /** The renderings of `items` joined in list order, the k-th of them
      rendered with the number `first + k`. */
  function Numbered<T>(render: (nat, T) -> string, items: seq<T>, first: nat): string
    decreases |items|
  {
    if items == [] then ""
    else
      var k := |items| - 1;
      Numbered(render, items[..k], first) + render(first + k, items[k])
  }

  lemma NumberedSnoc<T>(render: (nat, T) -> string, items: seq<T>, i: nat, first: nat)
    requires i < |items|
    ensures Numbered(render, items[..i + 1], first)
         == Numbered(render, items[..i], first) + render(first + i, items[i])
  {
    assert items[..i + 1][..i] == items[..i];
  }

  /** String concatenation regroups freely. Dafny knows this, but the loop
      of `FormatContestEntries` needs it stated for its three strings to
      keep the proof within bounds. */
  lemma AppendAssoc(a: string, b: string, c: string)
    ensures (a + b) + c == a + (b + c)
  {
  }

  /** What `format_contest_entries(entries, title)` returns. */
  function FormatEntries(entries: seq<Contest>, title: string): (r: string)
    ensures r == NoneFound(title) <==> entries == []
    ensures entries != [] ==> Header(title, |entries|) <= r
  {
    if entries == [] then NoneFound(title)
    else Header(title, |entries|) + Numbered(Block, entries, 1)
  }

  /** What `format_full_contests()` returns for the contest list it loads. */
  function FullListing(contests: seq<Contest>): (r: string)
    ensures contests == [] <==> r == NoContests
    ensures contests != [] ==> r == Header(Title, |contests|) + Concat(NumberedBlocks(contests, 1))
    ensures r != NoneFound(Title)
  {
    if contests == [] then NoContests
    else
      FormatLayout(contests, Title);
      FormatEntries(contests, Title)
  }

  /** One pass of the loop of `format_contest_entries`: the lines for the
      entry numbered `n`, each added only when its field is set. */
  method RenderBlock(n: nat, c: Contest) returns (block: string)
    ensures block == Block(n, c)
  {
    var head := "<b>" + NatToString(n) + ". " + NameOf(c) + "</b>\n";
    var dateLine;
    if Truthy(c.parsedDate) {
      dateLine := "📅 " + c.parsedDate.value + "\n";
    } else {
      dateLine := "📅 " + c.date.GetOr("Unknown") + "\n";
    }
    var st := Or(c.startTime, Or(c.time, ""));
    var et := Or(c.endTime, "");
    var timeLine := "";
    if st != "" {
      timeLine := "⏰ " + st;
      if et != "" {
        timeLine := timeLine + " - " + et;
      }
      timeLine := timeLine + "\n";
    }
    assert timeLine == TimeLine(c);
    var platform := Or(c.platform, Or(c.site, Or(c.resource, "")));
    var platformLine := "";
    if platform != "" {
      platformLine := "📌 " + platform + "\n";
    }
    var linkLine := "";
    if Truthy(c.url) {
      linkLine := "🔗 <a href='" + c.url.value + "'>Link</a>\n";
    }
    assert dateLine == DateLine(c);
    assert platformLine == PlatformLine(c);
    assert linkLine == LinkLine(c);
    block := head + dateLine + timeLine + platformLine + linkLine + "\n";
    assert head == Heading(n, c);
  }

  /** `format_contest_entries`: builds the message by appending the header
      and then one block per entry. */
  method FormatContestEntries(entries: seq<Contest>, title: string) returns (msg: string)
    ensures msg == FormatEntries(entries, title)
  {
    if |entries| == 0 {
      return "❌ " + title + " - none found.";
    }
    msg := title + " (" + NatToString(|entries|) + ")\n";
    msg := msg + Repeat('=', 40) + "\n\n";
    var i := 0;
    while i < |entries|
      invariant 0 <= i <= |entries|
      invariant msg == Header(title, |entries|) + Numbered(Block, entries[..i], 1)
    {
      var block := RenderBlock(i + 1, entries[i]);
      NumberedSnoc(Block, entries, i, 1);
      AppendAssoc(Header(title, |entries|), Numbered(Block, entries[..i], 1), block);
      msg := msg + block;
      i := i + 1;
    }
    assert entries[..i] == entries;
  }

  // ---------------------------------------------------------------------
  // The layout of a listing

  /** The strings of `parts` joined end to end. */
  function Concat(parts: seq<string>): string {
    if parts == [] then "" else parts[0] + Concat(parts[1..])
  }

  lemma {:induction false} ConcatSnoc(parts: seq<string>, last: string)
    ensures Concat(parts + [last]) == Concat(parts) + last
    decreases |parts|
  {
    if parts != [] {
      assert (parts + [last])[1..] == parts[1..] + [last];
      ConcatSnoc(parts[1..], last);
    }
  }

  /** The i-th part is the block numbered `first + i` for the i-th entry. */
  function NumberedBlocks(entries: seq<Contest>, first: nat): (r: seq<string>)
    ensures |r| == |entries|
    ensures forall i :: 0 <= i < |entries| ==> r[i] == Block(first + i, entries[i])
  {
    seq(|entries|, i requires 0 <= i < |entries| => Block(first + i, entries[i]))
  }

  lemma {:induction false} NumberedIsConcat<T>(render: (nat, T) -> string, items: seq<T>, first: nat, parts: seq<string>)
    requires |parts| == |items|
    requires forall i :: 0 <= i < |items| ==> parts[i] == render(first + i, items[i])
    ensures Numbered(render, items, first) == Concat(parts)
    decreases |items|
  {
    if items != [] {
      var k := |items| - 1;
      forall i | 0 <= i < k
        ensures parts[..k][i] == render(first + i, items[..k][i])
      {
        assert parts[..k][i] == parts[i] && items[..k][i] == items[i];
      }
      NumberedIsConcat(render, items[..k], first, parts[..k]);
      assert parts == parts[..k] + [parts[k]];
      ConcatSnoc(parts[..k], parts[k]);
    }
  }

  /** A non-empty listing is its header followed by exactly one block per
      entry, numbered from 1, in the order of the input. */
  lemma FormatLayout(entries: seq<Contest>, title: string)
    requires entries != []
    ensures FormatEntries(entries, title)
         == Header(title, |entries|) + Concat(NumberedBlocks(entries, 1))
  {
    NumberedIsConcat(Block, entries, 1, NumberedBlocks(entries, 1));
  }

  predicate EndsInNewline(s: string) {
    s != [] && s[|s| - 1] == '\n'
  }

  /** Appending an empty or newline-terminated line keeps a newline at the end. */
  lemma NewlineKept(a: string, line: string)
    requires EndsInNewline(a)
    requires line == "" || EndsInNewline(line)
    ensures EndsInNewline(a + line)
  {
    if line == "" {
      assert a + line == a;
    }
  }

  /** A block made of a heading, a newline-terminated line and three lines
      that are each empty or newline-terminated, closed by "\n", starts with
      the heading and ends in an empty line. */
  lemma EndsInEmptyLine(head: string, date: string, time: string, platform: string, link: string)
    requires EndsInNewline(date)
    requires time == "" || EndsInNewline(time)
    requires platform == "" || EndsInNewline(platform)
    requires link == "" || EndsInNewline(link)
    ensures var b := head + date + time + platform + link + "\n";
            head <= b && |b| >= 2 && b[|b| - 2..] == "\n\n"
  {
    var p := head + date;
    NewlineKept(p, time);
    NewlineKept(p + time, platform);
    NewlineKept(p + time + platform, link);
    var q := p + time + platform + link;
    assert head <= q + "\n" by {
      assert q + "\n" == head + (date + time + platform + link + "\n");
    }
  }

  /** Every block opens with its bold numbered heading and ends with an empty
      line, which separates it from the next block. */
  lemma BlockShape(n: nat, c: Contest)
    ensures Heading(n, c) <= Block(n, c)
    ensures |Block(n, c)| >= 2 && Block(n, c)[|Block(n, c)| - 2..] == "\n\n"
  {
    EndsInEmptyLine(Heading(n, c), DateLine(c), TimeLine(c), PlatformLine(c), LinkLine(c));
  }
}
