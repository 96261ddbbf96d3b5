/** Posting comments to Flickr (src/flickypedia/apis/flickr/comments.py):
 *  the two comment texts and the classification of the answer to
 *  `flickr.photos.comments.addComment`.
 *
 *  The texts are indented triple-quoted templates passed through
 *  `textwrap.dedent` and `str.strip`; both are written out here. The HTTP
 *  request and the XML parser are not modelled: the answer is given as
 *  its raw text and the parts of the parsed document the code reads. */
module FlickrComments {
  import opened Wrappers
  import opened Text

  // ---------------------------------------------------------------------
  // Lines: `str.split("\n")` and `"\n".join`

  /** The first line feed of `s`. */
  function FirstNewline(s: string): (i: nat)
    requires '\n' in s
    ensures i < |s| && s[i] == '\n' && '\n' !in s[..i]
  {
    if s[0] == '\n' then 0
    else
      var i := FirstNewline(s[1..]);
      assert s[..i + 1] == [s[0]] + s[1..][..i];
      i + 1
  }

  /** `s.split("\n")`: always at least one line, none holding a line feed. */
  function SplitNewlines(s: string): (lines: seq<string>)
    ensures |lines| >= 1
    ensures forall k :: 0 <= k < |lines| ==> '\n' !in lines[k]
    decreases |s|
  {
    if '\n' !in s then [s]
    else
      var i := FirstNewline(s);
      [s[..i]] + SplitNewlines(s[i + 1..])
  }

  /** Joining the lines with line feeds gives the text back. */
  lemma {:induction false} SplitNewlinesRoundTrip(s: string)
    ensures Join("\n", SplitNewlines(s)) == s
    decreases |s|
  {
    if '\n' in s {
      var i := FirstNewline(s);
      var rest := SplitNewlines(s[i + 1..]);
      calc {
        Join("\n", SplitNewlines(s));
        Join("\n", [s[..i]] + rest);
        { JoinCons("\n", s[..i], rest); }
        s[..i] + "\n" + Join("\n", rest);
        { SplitNewlinesRoundTrip(s[i + 1..]); }
        s[..i] + "\n" + s[i + 1..];
        { assert s[i] == '\n'; }
        s;
      }
    }
  }

  /** Joining a first part onto a non-empty rest puts the separator
   *  between them. */
  lemma JoinCons(sep: string, first: string, rest: seq<string>)
    requires rest != []
    ensures Join(sep, [first] + rest) == first + sep + Join(sep, rest)
  {
    var parts := [first] + rest;
    assert |parts| > 1 && parts[0] == first && parts[1..] == rest;
  }

  /** A line without a line feed, a line feed, then the rest. */
  lemma SplitAfterLine(a: string, b: string)
    requires '\n' !in a
    ensures SplitNewlines(a + "\n" + b) == [a] + SplitNewlines(b)
  {
    var s := a + "\n" + b;
    assert s[|a|] == '\n';
    assert FirstNewline(s) == |a| by {
      var i := FirstNewline(s);
      assert forall k :: 0 <= k < |a| ==> s[k] == a[k];
    }
    assert s[..|a|] == a && s[|a| + 1..] == b;
  }

  // ---------------------------------------------------------------------
  // textwrap.dedent

  predicate IsIndentChar(c: char) {
    c == ' ' || c == '\t'
  }

  /** The leading spaces and tabs of a line. */
  function Indent(line: string): (r: string)
    ensures StartsWith(line, r)
    ensures forall k :: 0 <= k < |r| ==> IsIndentChar(r[k])
    ensures |r| < |line| ==> !IsIndentChar(line[|r|])
  {
    if line != [] && IsIndentChar(line[0]) then
      var r := [line[0]] + Indent(line[1..]);
      assert line[..|r|] == [line[0]] + line[1..][..|r| - 1];
      r
    else []
  }

  /** A line with a character other than a space or a tab. */
  predicate HasContent(line: string) {
    |Indent(line)| < |line|
  }

  /** A line made only of spaces and tabs, which `dedent` empties. */
  predicate IsBlank(line: string) {
    line != [] && !HasContent(line)
  }

  /** The longest common prefix of two strings. */
  function CommonPrefix(a: string, b: string): (r: string)
    ensures StartsWith(a, r) && StartsWith(b, r)
    ensures |r| < |a| && |r| < |b| ==> a[|r|] != b[|r|]
  {
    if a == [] || b == [] || a[0] != b[0] then []
    else
      var r := [a[0]] + CommonPrefix(a[1..], b[1..]);
      assert a[..|r|] == [a[0]] + a[1..][..|r| - 1];
      assert b[..|r|] == [b[0]] + b[1..][..|r| - 1];
      r
  }

  lemma {:induction false} CommonPrefixSelf(a: string)
    ensures CommonPrefix(a, a) == a
  {
    if a != [] {
      CommonPrefixSelf(a[1..]);
    }
  }

  /** The margin `dedent` removes: the longest common prefix of the
   *  indents of the lines with content, `None` when there is no such
   *  line. (The common prefix does not depend on the order in which the
   *  lines are taken.) */
  function Margin(lines: seq<string>): Option<string> {
    if lines == [] then None
    else
      var rest := Margin(lines[1..]);
      if !HasContent(lines[0]) then rest
      else if rest.None? then Some(Indent(lines[0]))
      else Some(CommonPrefix(Indent(lines[0]), rest.value))
  }

  /** One line after `dedent`: a blank line is emptied, and the margin is
   *  removed from a line that starts with it. */
  function DedentLine(line: string, margin: string): string {
    if IsBlank(line) then ""
    else if StartsWith(line, margin) then line[|margin|..]
    else line
  }

  function DedentLines(lines: seq<string>, margin: string): (r: seq<string>)
    ensures |r| == |lines|
    ensures forall k :: 0 <= k < |lines| ==> r[k] == DedentLine(lines[k], margin)
  {
    if lines == [] then [] else [DedentLine(lines[0], margin)] + DedentLines(lines[1..], margin)
  }

  /** `textwrap.dedent`. */
  function Dedent(text: string): (r: string)
    ensures var lines := SplitNewlines(text); var m := Margin(lines);
      r == Join("\n", DedentLines(lines, if m.Some? then m.value else ""))
  {
    var lines := SplitNewlines(text);
    var margin := Margin(lines);
    Join("\n", DedentLines(lines, if margin.Some? then margin.value else ""))
  }

  // ---------------------------------------------------------------------
  // The indented templates

  const Indent8 := "        "
  const Indent4 := "    "

  /** A paragraph of a template: one line, starting with a character that
   *  is neither indentation nor white space. */
  predicate IsParagraph(p: string) {
    p != [] && '\n' !in p && !IsIndentChar(p[0])
  }

  predicate AllParagraphs(ps: seq<string>) {
    ps != [] && forall k :: 0 <= k < |ps| ==> IsParagraph(ps[k])
  }

  /** The body of a template: each paragraph on a line indented by eight
   *  spaces, an empty line between paragraphs, and the four spaces before
   *  the closing quotes on the last line. */
  function Body(ps: seq<string>): string
    requires ps != []
  {
    if |ps| == 1 then Indent8 + ps[0] + "\n" + Indent4
    else Indent8 + ps[0] + "\n\n" + Body(ps[1..])
  }

  /** The text of the f-string, which starts with a line feed after the
   *  opening quotes. */
  function Template(ps: seq<string>): string
    requires ps != []
  {
    "\n" + Body(ps)
  }

  /** The lines of `Body`. */
  function BodyLines(ps: seq<string>): seq<string>
    requires ps != []
  {
    if |ps| == 1 then [Indent8 + ps[0], Indent4]
    else [Indent8 + ps[0], ""] + BodyLines(ps[1..])
  }

  /** The lines of the body after `dedent`. */
  function DedentedLines(ps: seq<string>): seq<string>
    requires ps != []
  {
    if |ps| == 1 then [ps[0], ""]
    else [ps[0], ""] + DedentedLines(ps[1..])
  }

  lemma ClosingLine()
    ensures SplitNewlines(Indent4) == [Indent4]
    ensures Indent(Indent4) == Indent4 && !HasContent(Indent4) && IsBlank(Indent4)
  {
  }

  lemma AllParagraphsTail(ps: seq<string>)
    requires AllParagraphs(ps) && |ps| > 1
    ensures AllParagraphs(ps[1..])
  {
    assert forall k :: 0 <= k < |ps| - 1 ==> ps[1..][k] == ps[k + 1];
  }

  lemma IndentedParagraphLine(p: string)
    requires IsParagraph(p)
    ensures '\n' !in Indent8 + p
    ensures Indent(Indent8 + p) == Indent8 && HasContent(Indent8 + p)
    ensures DedentLine(Indent8 + p, Indent8) == p
  {
    assert forall k :: 0 <= k < 8 ==> (Indent8 + p)[k] == ' ';
    assert forall k :: 8 <= k < |Indent8 + p| ==> (Indent8 + p)[k] == p[k - 8];
    IndentOfIndented(Indent8, p);
    assert (Indent8 + p)[..8] == Indent8 && (Indent8 + p)[8..] == p;
  }

  lemma {:induction false} IndentOfIndented(w: string, p: string)
    requires forall k :: 0 <= k < |w| ==> IsIndentChar(w[k])
    requires p != [] && !IsIndentChar(p[0])
    ensures Indent(w + p) == w
  {
    if w != [] {
      assert (w + p)[1..] == w[1..] + p;
      IndentOfIndented(w[1..], p);
      assert w == [w[0]] + w[1..];
    }
  }

  /** An empty line between two lines. */
  lemma SplitAroundEmptyLine(a: string, x: string)
    requires '\n' !in a
    ensures SplitNewlines(a + "\n\n" + x) == [a, ""] + SplitNewlines(x)
  {
    var y := "\n" + x;
    assert a + "\n\n" + x == a + "\n" + y;
    SplitAfterLine(a, y);
    SplitAfterFirstNewline(x);
    assert [a] + ([""] + SplitNewlines(x)) == [a, ""] + SplitNewlines(x);
  }

  lemma SplitAfterFirstNewline(x: string)
    ensures SplitNewlines("\n" + x) == [""] + SplitNewlines(x)
  {
    assert "\n" + x == "" + "\n" + x;
    SplitAfterLine("", x);
  }

  lemma {:induction false} BodySplit(ps: seq<string>)
    requires AllParagraphs(ps)
    ensures SplitNewlines(Body(ps)) == BodyLines(ps)
  {
    IndentedParagraphLine(ps[0]);
    if |ps| == 1 {
      ClosingLine();
      SplitAfterLine(Indent8 + ps[0], Indent4);
    } else {
      AllParagraphsTail(ps);
      BodySplit(ps[1..]);
      SplitAroundEmptyLine(Indent8 + ps[0], Body(ps[1..]));
    }
  }

  /** The common indent of the body's lines is eight spaces. */
  lemma {:induction false} BodyMargin(ps: seq<string>)
    requires AllParagraphs(ps)
    ensures Margin(BodyLines(ps)) == Some(Indent8)
  {
    var lines := BodyLines(ps);
    IndentedParagraphLine(ps[0]);
    if |ps| == 1 {
      ClosingLine();
      assert Margin(lines[1..]) == None by {
        assert lines[1..] == [Indent4] && [Indent4][1..] == [];
      }
    } else {
      AllParagraphsTail(ps);
      BodyMargin(ps[1..]);
      CommonPrefixSelf(Indent8);
      assert lines[1..][1..] == BodyLines(ps[1..]);
    }
  }

  lemma {:induction false} BodyDedent(ps: seq<string>)
    requires AllParagraphs(ps)
    ensures DedentLines(BodyLines(ps), Indent8) == DedentedLines(ps)
  {
    IndentedParagraphLine(ps[0]);
    if |ps| == 1 {
      ClosingLine();
    } else {
      AllParagraphsTail(ps);
      BodyDedent(ps[1..]);
      var lines := BodyLines(ps);
      assert lines[1..][1..] == BodyLines(ps[1..]);
    }
  }

  lemma {:induction false} JoinDedentedLines(ps: seq<string>)
    requires ps != []
    ensures Join("\n", DedentedLines(ps)) == Join("\n\n", ps) + "\n"
  {
    var lines := DedentedLines(ps);
    if |ps| > 1 {
      JoinDedentedLines(ps[1..]);
      assert lines[1..][1..] == DedentedLines(ps[1..]);
      assert lines[0] + "\n" + ("" + "\n" + (Join("\n\n", ps[1..]) + "\n"))
        == ps[0] + "\n\n" + Join("\n\n", ps[1..]) + "\n";
    } else {
      assert lines[1..] == [""];
    }
  }

  lemma TemplateLines(ps: seq<string>)
    requires AllParagraphs(ps)
    ensures SplitNewlines(Template(ps)) == [""] + BodyLines(ps)
  {
    SplitAfterFirstNewline(Body(ps));
    BodySplit(ps);
  }

  lemma TemplateMargin(ps: seq<string>)
    requires AllParagraphs(ps)
    ensures Margin([""] + BodyLines(ps)) == Some(Indent8)
  {
    BodyMargin(ps);
    assert ([""] + BodyLines(ps))[1..] == BodyLines(ps);
  }

  lemma JoinAfterEmptyLine(lines: seq<string>)
    requires lines != []
    ensures Join("\n", [""] + lines) == "\n" + Join("\n", lines)
  {
    assert ([""] + lines)[1..] == lines;
  }

  /** `dedent` turns a template into its paragraphs separated by empty
   *  lines, with a line feed before and after. */
  lemma DedentTemplate(ps: seq<string>)
    requires AllParagraphs(ps)
    ensures Dedent(Template(ps)) == "\n" + Join("\n\n", ps) + "\n"
  {
    var lines := [""] + BodyLines(ps);
    TemplateLines(ps);
    TemplateMargin(ps);
    assert Dedent(Template(ps)) == Join("\n", DedentLines(lines, Indent8));
    DedentLinesCons("", BodyLines(ps), Indent8);
    assert DedentLine("", Indent8) == "";
    BodyDedent(ps);
    assert DedentLines(lines, Indent8) == [""] + DedentedLines(ps);
    JoinDedentedLines(ps);
    JoinAfterEmptyLine(DedentedLines(ps));
  }

  /** Dedenting a first line and then the rest. */
  lemma DedentLinesCons(first: string, rest: seq<string>, margin: string)
    ensures DedentLines([first] + rest, margin) == [DedentLine(first, margin)] + DedentLines(rest, margin)
  {
    assert ([first] + rest)[0] == first && ([first] + rest)[1..] == rest;
  }

  /** The first and last characters of the joined paragraphs. */
  lemma {:induction false} JoinEnds(ps: seq<string>)
    requires ps != [] && forall k :: 0 <= k < |ps| ==> ps[k] != []
    ensures var j := Join("\n\n", ps);
      j != [] && j[0] == ps[0][0] && j[|j| - 1] == ps[|ps| - 1][|ps[|ps| - 1]| - 1]
  {
    if |ps| > 1 {
      JoinEnds(ps[1..]);
    }
  }

  /** `strip` removes the line feeds around a text that neither starts
   *  nor ends with white space. */
  lemma StripAround(x: string)
    requires x != [] && !IsSpace(x[0]) && !IsSpace(x[|x| - 1])
    ensures Strip("\n" + x + "\n") == x
  {
    var s := "\n" + x + "\n";
    assert s[1..] == x + "\n";
    assert StripLeft(s) == StripLeft(x + "\n");
    assert StripLeft(x + "\n") == x + "\n";
    assert (x + "\n")[..|x|] == x;
    assert StripRight(x + "\n") == StripRight(x);
  }

  /** A template, dedented and stripped, is its paragraphs separated by
   *  empty lines, when the first paragraph starts and the last one ends
   *  with a character that is not white space. */
  lemma RenderTemplate(ps: seq<string>)
    requires AllParagraphs(ps) && ps[0] != [] && ps[|ps| - 1] != []
    requires !IsSpace(ps[0][0]) && !IsSpace(ps[|ps| - 1][|ps[|ps| - 1]| - 1])
    ensures Strip(Dedent(Template(ps))) == Join("\n\n", ps)
  {
    DedentTemplate(ps);
    JoinEnds(ps);
    StripAround(Join("\n\n", ps));
  }

  // ---------------------------------------------------------------------
  // create_bot_comment_text, create_default_user_comment_text

  const FilePrefix := "File:"
  const CommonsWiki := "https://commons.wikimedia.org/wiki/"
  const BotProfileUrl := "https://www.flickr.com/people/flickypedia"

  /** An HTML link. */
  function Link(url: string, text: string): string {
    "<a href=\"" + url + "\">" + text + "</a>"
  }

  /** The link to the main page of Wikimedia Commons. */
  function MainPageLink(): string {
    Link(CommonsWiki + "Main_Page", "Wikimedia Commons")
  }

  /** The link to the file page. */
  function FilePageLink(title: string): string {
    Link(CommonsWiki + title, "Would you like to see")
  }

  function BotGreeting(): string {
    "Hi, I\U{2019}m " + Link(BotProfileUrl, "Flickypedia Bot") + "."
  }

  function BotUploader(userName: string, userUrl: string): string {
    "A Wikimedia Commons user named " + Link(userUrl, userName)
      + " has uploaded your photo to " + MainPageLink() + "."
  }

  function BotInvitation(title: string): string {
    FilePageLink(title) + "? We hope you like it!"
  }

  /** `create_bot_comment_text`: the title must start with "File:". */
  function CreateBotCommentText(userName: string, userUrl: string, title: string): (r: Result<string>)
    ensures r.Err? <==> !StartsWith(title, FilePrefix)
    ensures r.Err? ==> r.error == AssertionError
    ensures r.Ok? ==>
      r.value == Strip(Dedent(Template([BotGreeting(), BotUploader(userName, userUrl), BotInvitation(title)])))
  {
    if !StartsWith(title, FilePrefix) then Err(AssertionError)
    else Ok(Strip(Dedent(Template([BotGreeting(), BotUploader(userName, userUrl), BotInvitation(title)]))))
  }

  function UserInvitation(title: string): string {
    "Hi, I\U{2019}ve uploaded your photo to " + MainPageLink() + ". " + FilePageLink(title) + "?"
  }

  const UserClosing := "I hope you like it!"

  /** `create_default_user_comment_text`: the title must start with "File:". */
  function CreateDefaultUserCommentText(title: string): (r: Result<string>)
    ensures r.Err? <==> !StartsWith(title, FilePrefix)
    ensures r.Err? ==> r.error == AssertionError
    ensures r.Ok? ==> r.value == Strip(Dedent(Template([UserInvitation(title), UserClosing])))
  {
    if !StartsWith(title, FilePrefix) then Err(AssertionError)
    else Ok(Strip(Dedent(Template([UserInvitation(title), UserClosing]))))
  }

  /** Three paragraphs, dedented and stripped. */
  lemma RenderThree(a: string, b: string, c: string)
    requires IsParagraph(a) && IsParagraph(b) && IsParagraph(c)
    requires !IsSpace(a[0]) && !IsSpace(c[|c| - 1])
    ensures Strip(Dedent(Template([a, b, c]))) == a + "\n\n" + b + "\n\n" + c
  {
    RenderTemplate([a, b, c]);
    JoinThree(a, b, c);
  }

  lemma JoinThree(a: string, b: string, c: string)
    ensures Join("\n\n", [a, b, c]) == a + "\n\n" + b + "\n\n" + c
  {
    assert [a, b, c][1..] == [b, c] && [b, c][1..] == [c];
    assert Join("\n\n", [b, c]) == b + "\n\n" + c;
  }

  /** Two paragraphs, dedented and stripped. */
  lemma RenderTwo(a: string, b: string)
    requires IsParagraph(a) && IsParagraph(b)
    requires !IsSpace(a[0]) && !IsSpace(b[|b| - 1])
    ensures Strip(Dedent(Template([a, b]))) == a + "\n\n" + b
  {
    var ps := [a, b];
    RenderTemplate(ps);
    assert ps[1..] == [b];
  }

  lemma LinkIsOneLine(url: string, text: string)
    requires '\n' !in url && '\n' !in text
    ensures '\n' !in Link(url, text)
  {
  }

  lemma CommonsWikiIsOneLine()
    ensures '\n' !in CommonsWiki
  {
  }

  lemma MainPageLinkIsOneLine()
    ensures '\n' !in MainPageLink()
  {
    CommonsWikiIsOneLine();
    LinkIsOneLine(CommonsWiki + "Main_Page", "Wikimedia Commons");
  }

  lemma FilePageLinkIsOneLine(title: string)
    requires '\n' !in title
    ensures '\n' !in FilePageLink(title) && FilePageLink(title)[0] == '<'
  {
    CommonsWikiIsOneLine();
    LinkIsOneLine(CommonsWiki + title, "Would you like to see");
  }

  lemma BotProfileUrlIsOneLine()
    ensures '\n' !in BotProfileUrl
  {
  }

  lemma BotGreetingIsParagraph()
    ensures IsParagraph(BotGreeting()) && !IsSpace(BotGreeting()[0])
  {
    BotProfileUrlIsOneLine();
    LinkIsOneLine(BotProfileUrl, "Flickypedia Bot");
  }

  lemma BotUploaderIsParagraph(userName: string, userUrl: string)
    requires '\n' !in userName && '\n' !in userUrl
    ensures IsParagraph(BotUploader(userName, userUrl))
  {
    MainPageLinkIsOneLine();
    LinkIsOneLine(userUrl, userName);
  }

  lemma BotInvitationIsParagraph(title: string)
    requires '\n' !in title
    ensures var p := BotInvitation(title); IsParagraph(p) && p[|p| - 1] == '!'
  {
    FilePageLinkIsOneLine(title);
  }

  /** The bot's comment: three paragraphs separated by empty lines,
   *  naming the user with a link to their page and linking the file
   *  page, when the values hold no line feed. */
  lemma BotCommentText(userName: string, userUrl: string, title: string)
    requires StartsWith(title, FilePrefix)
    requires '\n' !in userName && '\n' !in userUrl && '\n' !in title
    ensures CreateBotCommentText(userName, userUrl, title) ==
      Ok(BotGreeting() + "\n\n" + BotUploader(userName, userUrl) + "\n\n" + BotInvitation(title))
  {
    BotGreetingIsParagraph();
    BotUploaderIsParagraph(userName, userUrl);
    BotInvitationIsParagraph(title);
    RenderThree(BotGreeting(), BotUploader(userName, userUrl), BotInvitation(title));
  }

  lemma UserInvitationIsParagraph(title: string)
    requires '\n' !in title
    ensures var p := UserInvitation(title); IsParagraph(p) && !IsSpace(p[0])
  {
    MainPageLinkIsOneLine();
    FilePageLinkIsOneLine(title);
  }

  /** The default comment: the link to the file page, an empty line and
   *  the closing sentence, when the title holds no line feed. */
  lemma DefaultUserCommentText(title: string)
    requires StartsWith(title, FilePrefix) && '\n' !in title
    ensures CreateDefaultUserCommentText(title) == Ok(UserInvitation(title) + "\n\n" + UserClosing)
  {
    UserInvitationIsParagraph(title);
    assert IsParagraph(UserClosing) && UserClosing[|UserClosing| - 1] == '!';
    RenderTwo(UserInvitation(title), UserClosing);
  }

  // ---------------------------------------------------------------------
  // post_comment

  /** The parts of the parsed answer the code reads: the attributes of
   *  the root element and of the first `err` and `comment` elements. */
  datatype Answer = Answer(attrib: map<string, string>, err: Option<map<string, string>>, comment: Option<map<string, string>>)

  const OAuthProblemPrefix := "oauth_problem="

  /** The classification in `post_comment` of the answer text `text`,
   *  read by `parse` when it is XML: the new comment's id, or the
   *  exception raised. */
  function PostComment(text: string, parse: string -> Answer): (r: Result<string>)
    ensures StartsWith(text, OAuthProblemPrefix) ==> r == Err(FlickrApiException)
    ensures r.Ok? <==>
      (&& !StartsWith(text, OAuthProblemPrefix)
       && "stat" in parse(text).attrib && parse(text).attrib["stat"] != "fail"
       && parse(text).comment.Some? && "id" in parse(text).comment.value)
    ensures r.Ok? ==> r.value == parse(text).comment.value["id"]
    ensures r == Err(FlickrApiException) <==>
      || StartsWith(text, OAuthProblemPrefix)
      || (&& "stat" in parse(text).attrib && parse(text).attrib["stat"] == "fail"
          && parse(text).err.Some? && "code" in parse(text).err.value
          && parse(text).err.value["code"] != "99" && parse(text).err.value["code"] != "1")
    ensures r == Err(KeyError) <==>
      (&& !StartsWith(text, OAuthProblemPrefix)
       && (|| "stat" !in parse(text).attrib
           || (parse(text).attrib["stat"] == "fail" && parse(text).err.Some? && "code" !in parse(text).err.value)
           || (parse(text).attrib["stat"] != "fail" && parse(text).comment.Some? && "id" !in parse(text).comment.value)))
    ensures r == Err(ValueError) <==>
      (&& !StartsWith(text, OAuthProblemPrefix) && "stat" in parse(text).attrib
       && (if parse(text).attrib["stat"] == "fail" then parse(text).err.None? else parse(text).comment.None?))
    ensures r == Err(InsufficientPermissionsToComment) <==>
      (&& !StartsWith(text, OAuthProblemPrefix)
       && "stat" in parse(text).attrib && parse(text).attrib["stat"] == "fail"
       && parse(text).err.Some? && "code" in parse(text).err.value && parse(text).err.value["code"] == "99")
    ensures r == Err(ResourceNotFound) <==>
      (&& !StartsWith(text, OAuthProblemPrefix)
       && "stat" in parse(text).attrib && parse(text).attrib["stat"] == "fail"
       && parse(text).err.Some? && "code" in parse(text).err.value && parse(text).err.value["code"] == "1")
    ensures r.Err? ==> r.error in {FlickrApiException, InsufficientPermissionsToComment, ResourceNotFound, KeyError, ValueError}
  {
    if StartsWith(text, OAuthProblemPrefix) then Err(FlickrApiException)
    else
      var answer := parse(text);
      if "stat" !in answer.attrib then Err(KeyError)
      else if answer.attrib["stat"] == "fail" then
        match answer.err
        case None => Err(ValueError)
        case Some(errors) =>
          if "code" !in errors then Err(KeyError)
          else if errors["code"] == "99" then Err(InsufficientPermissionsToComment)
          else if errors["code"] == "1" then Err(ResourceNotFound)
          else Err(FlickrApiException)
      else
        match answer.comment
        case None => Err(ValueError)
        case Some(comment) =>
          if "id" !in comment then Err(KeyError) else Ok(comment["id"])
  }

  /** A failed call with any other error code raises the generic Flickr
   *  exception. */
  lemma OtherFailureCodes(text: string, parse: string -> Answer)
    requires !StartsWith(text, OAuthProblemPrefix)
    requires "stat" in parse(text).attrib && parse(text).attrib["stat"] == "fail"
    requires parse(text).err.Some? && "code" in parse(text).err.value
    requires parse(text).err.value["code"] != "99" && parse(text).err.value["code"] != "1"
    ensures PostComment(text, parse) == Err(FlickrApiException)
  {
  }
}
