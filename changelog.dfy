/**
 * The release tool's CHANGELOG.md update: a section for the new version is
 * built from the commit messages and inserted before the newest existing
 * section, or a fresh file is written when there is none. The date and the
 * file's current lines are parameters; reading and writing the file is not
 * modelled.
 */
module Changelog {

  import opened Wrappers
  import opened Strings

  /** What `update` writes: a list of lines, or one text. */
  datatype Written = Lines(lines: seq<string>) | Text(text: string)

  /** The fixed sentence under the title (in short pieces, which the verifier can look into). */
  const Notice: string := "All notable " + "changes to " + "this project " + "will be " + "documented " + "in this file."
  const Placeholder: string := "- add details here"

  /** The first lines of a new changelog, as the header text spells them out. */
  function HeaderLines(name: string): seq<string>
  {
    ["# Changelog for " + name, "", Notice, ""]
  }

  /** The header the constructor stores: the title, a blank line, the notice, a blank line. */
  function Header(name: string): (h: string)
    ensures h == Join(HeaderLines(name), '\n') + "\n"
  {
    JoinTitled("# Changelog for " + name, Notice);
    "# Changelog for " + name + "\n\n" + Notice + "\n\n"
  }

  lemma JoinTitled(title: string, notice: string)
    ensures title + "\n\n" + notice + "\n\n" == Join([title, "", notice, ""], '\n') + "\n"
  {
    var parts := [title, "", notice, ""];
    assert parts[1..][1..][1..] == [""];
    assert Join(parts[1..][1..], '\n') == notice + "\n";
    assert Join(parts[1..], '\n') == "\n" + notice + "\n";
  }

  /** A level-2 heading, the form of every version section. */
  predicate IsH2(line: string)
  {
    StartsWith(line, "## ")
  }

  /** The bullet lines: one '- ' line per message, or the placeholder when there are none. */
  function Bullets(message: Option<seq<string>>): (r: seq<string>)
    ensures message.Some? && |message.value| > 0 ==>
              |r| == |message.value| && forall i :: 0 <= i < |r| ==> r[i] == "- " + message.value[i]
    ensures message.None? || |message.value| == 0 ==> r == [Placeholder]
  {
    if message.Some? && |message.value| > 0 then Prefixed(message.value) else [Placeholder]
  }

  function Prefixed(msgs: seq<string>): (r: seq<string>)
    ensures |r| == |msgs| && forall i :: 0 <= i < |r| ==> r[i] == "- " + msgs[i]
  {
    if msgs == [] then [] else ["- " + msgs[0]] + Prefixed(msgs[1..])
  }

  /** The new section: its heading with version and date, a blank line, the bullets. */
  function Section(version: string, date: string, bullets: seq<string>): (s: seq<string>)
    ensures |s| == 2 + |bullets| && s[2..] == bullets
    ensures s[0] == "## [" + version + "] - " + date && IsH2(s[0]) && s[1] == ""
  {
    ["## [" + version + "] - " + date, ""] + bullets
  }

  /** `findIndex` of the first level-2 heading, or -1. */
  function FirstH2Index(lines: seq<string>): (r: int)
    ensures -1 <= r < |lines|
    ensures r == -1 <==> forall i :: 0 <= i < |lines| ==> !IsH2(lines[i])
    ensures r >= 0 ==> IsH2(lines[r]) && forall i :: 0 <= i < r ==> !IsH2(lines[i])
  {
    if lines == [] then -1
    else if IsH2(lines[0]) then 0
    else
      var r := FirstH2Index(lines[1..]);
      if r == -1 then -1 else r + 1
  }

  /** `lines.splice(at, 0, ...section, '')`: the section and one blank line go in before position `at`. */
  function Splice(lines: seq<string>, at: nat, section: seq<string>): (r: seq<string>)
    requires at <= |lines|
    ensures |r| == |lines| + |section| + 1
    ensures r[..at] == lines[..at] && r[at..at + |section|] == section && r[at + |section|] == ""
    ensures r[at + |section| + 1..] == lines[at..]
  {
    lines[..at] + section + [""] + lines[at..]
  }

  /**
   * What `update` writes, with the section written line by line when the
   * file is new. A file with a level-2 heading gets the section spliced in
   * before the first one; otherwise the header and the section replace it.
   */
  function Updated(header: string, version: string, date: string, message: Option<seq<string>>,
                   file: Option<seq<string>>): (w: Written)
    ensures w.Lines? <==> file.Some? && exists i :: 0 <= i < |file.value| && IsH2(file.value[i])
  {
    var section := Section(version, date, Bullets(message));
    if file.Some? && FirstH2Index(file.value) != -1 then Lines(Splice(file.value, FirstH2Index(file.value), section))
    else Text(header + Join(section, '\n') + "\n")
  }

  /** The same, with the section put into the new file's text the way the template does: comma-joined. */
  function UpdatedAsWritten(header: string, version: string, date: string, message: Option<seq<string>>,
                            file: Option<seq<string>>): (w: Written)
    ensures w.Lines? <==> file.Some? && exists i :: 0 <= i < |file.value| && IsH2(file.value[i])
  {
    var section := Section(version, date, Bullets(message));
    if file.Some? && FirstH2Index(file.value) != -1 then Lines(Splice(file.value, FirstH2Index(file.value), section))
    else Text(header + Join(section, ',') + "\n")
  }

  /** The changelog of one package; the file itself is the `file` parameter of `Update`. */
  class Changelog {
    const header: string

    constructor(name: string)
      ensures header == Header(name)
    {
      header := Header(name);
    }

    /**
     * `update` as corrected: `file` is None when CHANGELOG.md is not a file,
     * else its lines. A new file gets the section line by line; the code as
     * written comma-joins it there, which UpdatedAsWritten models.
     */
    method Update(version: string, date: string, message: Option<seq<string>>, file: Option<seq<string>>)
      returns (written: Written)
      ensures written == Updated(header, version, date, message, file)
    {
      var msgs: seq<string> := [];
      if message.Some? && |message.value| > 0 {
        var k := 0;
        while k < |message.value|
          invariant 0 <= k <= |message.value|
          invariant |msgs| == k && forall i :: 0 <= i < k ==> msgs[i] == "- " + message.value[i]
        {
          msgs := msgs + ["- " + message.value[k]];
          k := k + 1;
        }
      } else {
        msgs := msgs + [Placeholder];
      }
      var newSection := ["## [" + version + "] - " + date, ""] + msgs;
      assert newSection == Section(version, date, Bullets(message));
      if file.Some? {
        var lines := file.value;
        var firstH2Index := FirstH2Index(lines);
        if firstH2Index != -1 {
          lines := lines[..firstH2Index] + newSection + [""] + lines[firstH2Index..];
          written := Lines(lines);
        } else {
          written := Text(header + Join(newSection, '\n') + "\n");
        }
      } else {
        written := Text(header + Join(newSection, '\n') + "\n");
      }
    }
  }

  // ---------------------------------------------------------------------------
  // Properties

  /** Taking the inserted lines out again gives the file back. */
  lemma SpliceRemoves(lines: seq<string>, at: nat, section: seq<string>)
    requires at <= |lines|
    ensures var r := Splice(lines, at, section);
            r[..at] + r[at + |section| + 1..] == lines
  {
    var r := Splice(lines, at, section);
    assert r[..at] == lines[..at];
    assert lines == lines[..at] + lines[at..];
  }

  /** After the splice the new section is the first one: its heading is the first level-2 heading. */
  lemma SpliceIsNewest(lines: seq<string>, section: seq<string>)
    requires FirstH2Index(lines) >= 0
    requires |section| > 0 && IsH2(section[0])
    ensures var at := FirstH2Index(lines);
            FirstH2Index(Splice(lines, at, section)) == at
  {
    var at := FirstH2Index(lines);
    var r := Splice(lines, at, section);
    assert r[at] == section[0];
    forall i | 0 <= i < at
      ensures !IsH2(r[i])
    {
      assert r[i] == r[..at][i] == lines[i];
    }
  }

  /** A file with sections grows by the section plus one blank line, and its sections keep their order after it. */
  lemma UpdatedSplices(header: string, version: string, date: string, message: Option<seq<string>>, lines: seq<string>)
    requires FirstH2Index(lines) >= 0
    ensures var section := Section(version, date, Bullets(message));
            var at := FirstH2Index(lines);
            Updated(header, version, date, message, Some(lines)) == Lines(Splice(lines, at, section))
            && |Updated(header, version, date, message, Some(lines)).lines| == |lines| + |section| + 1
            && FirstH2Index(Updated(header, version, date, message, Some(lines)).lines) == at
  {
    var section := Section(version, date, Bullets(message));
    SpliceIsNewest(lines, section);
  }

  /** No text piece of the changelog contains a line break. */
  ghost predicate OneLine(name: string, version: string, date: string, message: Option<seq<string>>)
  {
    '\n' !in name && '\n' !in version && '\n' !in date
    && (message.Some? ==> forall i :: 0 <= i < |message.value| ==> '\n' !in message.value[i])
  }

  lemma SectionOneLine(name: string, version: string, date: string, message: Option<seq<string>>)
    requires OneLine(name, version, date, message)
    ensures var section := Section(version, date, Bullets(message));
            forall i :: 0 <= i < |section| ==> '\n' !in section[i]
  {
    var section := Section(version, date, Bullets(message));
    forall i | 0 <= i < |section|
      ensures '\n' !in section[i]
    {
      if i == 0 {
        assert section[0] == "## [" + version + "] - " + date;
      } else if i >= 2 {
        assert section[i] == section[2..][i - 2] == Bullets(message)[i - 2];
      }
    }
  }

  /** The header's lines hold no line break and no level-2 heading. */
  lemma HeaderLinesFacts(name: string)
    requires '\n' !in name
    ensures |HeaderLines(name)| == 4
    ensures forall i :: 0 <= i < 4 ==> '\n' !in HeaderLines(name)[i] && !IsH2(HeaderLines(name)[i])
  {
    var h := HeaderLines(name);
    assert '\n' !in "# Changelog for ";
    NoticeFacts();
    assert !IsH2(h[0]) by { assert h[0][1] == ' '; }
  }

  lemma NoticeFacts()
    ensures '\n' !in Notice && !IsH2(Notice) && |Notice| > 3
  {
    assert Notice[0] == 'A';
  }

  /** Text made of two line-joined blocks, each ended by a line break, reads back as the lines and a final empty one. */
  lemma {:induction false} SplitTwoBlocks(h: seq<string>, body: seq<string>)
    requires |h| > 0 && |body| > 0
    requires forall i :: 0 <= i < |h| ==> '\n' !in h[i]
    requires forall i :: 0 <= i < |body| ==> '\n' !in body[i]
    ensures Split(Join(h, '\n') + "\n" + Join(body, '\n') + "\n", '\n') == h + body + [""]
  {
    JoinAppend(h, body, '\n');
    JoinAppend(h + body, [""], '\n');
    assert Join([""], '\n') == "";
    assert Join(h, '\n') + "\n" + Join(body, '\n') + "\n" == Join(h + body + [""], '\n');
    forall i | 0 <= i < |h + body + [""]|
      ensures '\n' !in (h + body + [""])[i]
    {
      if i < |h| {
        assert (h + body + [""])[i] == h[i];
      } else if i < |h| + |body| {
        assert (h + body + [""])[i] == body[i - |h|];
      }
    }
    SplitJoin(h + body + [""], '\n');
  }

  /** Lines without a level-2 heading, then one: the heading's position is the first. */
  lemma FirstH2After(h: seq<string>, rest: seq<string>)
    requires forall i :: 0 <= i < |h| ==> !IsH2(h[i])
    requires |rest| > 0 && IsH2(rest[0])
    ensures FirstH2Index(h + rest) == |h|
  {
    var lines := h + rest;
    assert lines[|h|] == rest[0];
    forall i | 0 <= i < |h|
      ensures !IsH2(lines[i])
    {
      assert lines[i] == h[i];
    }
  }

  /** A new file, read back as lines, is the header's lines, the section, and the final empty line. */
  lemma NewFileLines(name: string, version: string, date: string, message: Option<seq<string>>)
    requires OneLine(name, version, date, message)
    ensures var section := Section(version, date, Bullets(message));
            Split(Updated(Header(name), version, date, message, None).text, '\n') == HeaderLines(name) + section + [""]
  {
    var section := Section(version, date, Bullets(message));
    HeaderLinesFacts(name);
    SectionOneLine(name, version, date, message);
    SplitTwoBlocks(HeaderLines(name), section);
  }

  /** So the next update of a new file takes the splice path and goes in before this section, after the header. */
  lemma NewFileThenSplices(name: string, version: string, date: string, message: Option<seq<string>>)
    requires OneLine(name, version, date, message)
    ensures var lines := Split(Updated(Header(name), version, date, message, None).text, '\n');
            FirstH2Index(lines) == |HeaderLines(name)|
  {
    NewFileLines(name, version, date, message);
    var section := Section(version, date, Bullets(message));
    HeaderLinesFacts(name);
    FirstH2After(HeaderLines(name), section + [""]);
    assert HeaderLines(name) + section + [""] == HeaderLines(name) + (section + [""]);
  }

  /** The template joins the section with commas: the section's lines end up as one line of the new file. */
  lemma AsWrittenLines(name: string, version: string, date: string, message: Option<seq<string>>)
    requires OneLine(name, version, date, message)
    ensures var section := Section(version, date, Bullets(message));
            Split(UpdatedAsWritten(Header(name), version, date, message, None).text, '\n')
            == HeaderLines(name) + [Join(section, ',')] + [""]
  {
    var section := Section(version, date, Bullets(message));
    HeaderLinesFacts(name);
    SectionOneLine(name, version, date, message);
    JoinFree(section, ',', '\n');
    SplitTwoBlocks(HeaderLines(name), [Join(section, ',')]);
  }

  /** An instance: the message line '- a' is not a line of the new file the template writes, though it is one with line breaks. */
  lemma AsWrittenLosesBullets()
    ensures var text := UpdatedAsWritten(Header("x"), "1.0.0", "2024-01-01", Some(["a"]), None).text;
            "- a" !in Split(text, '\n')
    ensures var text := Updated(Header("x"), "1.0.0", "2024-01-01", Some(["a"]), None).text;
            "- a" in Split(text, '\n')
  {
    var message := Some(["a"]);
    assert OneLine("x", "1.0.0", "2024-01-01", message);
    assert Bullets(message)[0] == "- " + "a" == "- a";
    AsWrittenDropsLine(message);
    UpdatedKeepsLine(message);
  }

  lemma AsWrittenDropsLine(message: Option<seq<string>>)
    requires message == Some(["a"]) && OneLine("x", "1.0.0", "2024-01-01", message)
    ensures "- a" !in Split(UpdatedAsWritten(Header("x"), "1.0.0", "2024-01-01", message, None).text, '\n')
  {
    var section := Section("1.0.0", "2024-01-01", Bullets(message));
    AsWrittenLines("x", "1.0.0", "2024-01-01", message);
    var joined := Join(section, ',');
    assert |joined| > 3 by { assert joined == section[0] + [','] + Join(section[1..], ','); }
    var h := HeaderLines("x");
    assert |h[0]| == 17 && |h[1]| == 0 && |h[2]| == |Notice| > 3 && |h[3]| == 0;
    var lines := h + [joined] + [""];
    assert forall l | l in lines :: |l| != 3;
  }

  lemma UpdatedKeepsLine(message: Option<seq<string>>)
    requires message == Some(["a"]) && OneLine("x", "1.0.0", "2024-01-01", message)
    requires Bullets(message)[0] == "- a"
    ensures "- a" in Split(Updated(Header("x"), "1.0.0", "2024-01-01", message, None).text, '\n')
  {
    var section := Section("1.0.0", "2024-01-01", Bullets(message));
    NewFileLines("x", "1.0.0", "2024-01-01", message);
    assert (HeaderLines("x") + section + [""])[6] == section[2] == "- a";
  }
}
