/** The lines of apt's auth.conf: adding and removing the credentials of one repository. */
module AptAuth {
  import opened Common

  predicate IsSpace(c: char) {
    c == ' ' || c == '\t' || c == '\r' || c == '\n'
  }

  /** The class [.\-\w], on ASCII. */
  predicate IsHostChar(c: char) {
    c == '.' || c == '-' || c == '_' || '0' <= c <= '9' || 'a' <= c <= 'z' || 'A' <= c <= 'Z'
  }

  function SkipSpaces(s: string): (r: string)
    ensures |r| <= |s|
  {
    if s != [] && IsSpace(s[0]) then SkipSpaces(s[1..]) else s
  }

  function TakeHost(s: string): (r: string)
    ensures r <= s && forall c :: c in r ==> IsHostChar(c)
    ensures |r| < |s| ==> !IsHostChar(s[|r|])
  {
    if s != [] && IsHostChar(s[0]) then [s[0]] + TakeHost(s[1..]) else []
  }

  /** The group captured by the expression `machine\s+(?P<repo_url>[.\-\w]+)/?.*`: the host, never a path. */
  function MatchedHost(line: string): Option<string> {
    if "machine" <= line && |line| > 7 && IsSpace(line[7]) then
      var host := TakeHost(SkipSpaces(line[7..]));
      if host == "" then None else Some(host)
    else None
  }

  /** A character that a host is made of: a digit or an ASCII letter by its code, a dot, a dash or an underscore. */
  ghost predicate IsWordCode(c: char) {
    48 <= c as int <= 57 || 65 <= c as int <= 90 || 97 <= c as int <= 122 || c in ".-_"
  }

  /** The line is "machine", whitespace, the whole host, and then something else or nothing. */
  ghost predicate Captures(line: string, host: string) {
    exists space, rest :: SplitsAs(line, space, host, rest)
  }

  ghost predicate SplitsAs(line: string, space: string, host: string, rest: string) {
    && line == "machine" + space + host + rest
    && space != "" && (forall c :: c in space ==> c in " \t\r\n")
    && host != "" && (forall c :: c in host ==> IsWordCode(c)) && (rest != "" ==> !IsWordCode(rest[0]))
  }

  lemma {:induction false} SpacesSkipped(space: string, behind: string)
    requires (forall c :: c in space ==> c in " \t\r\n") && (behind != "" ==> !IsSpace(behind[0]))
    ensures SkipSpaces(space + behind) == behind
  {
    if space == "" {
      assert space + behind == behind;
    } else {
      assert (space + behind)[1..] == space[1..] + behind && space[0] in space;
      SpacesSkipped(space[1..], behind);
    }
  }

  lemma {:induction false} SkippedAre(s: string) returns (space: string)
    ensures s == space + SkipSpaces(s) && forall c :: c in space ==> c in " \t\r\n"
  {
    if s != "" && IsSpace(s[0]) {
      space := SkippedAre(s[1..]);
      space := [s[0]] + space;
    } else {
      space := "";
    }
  }

  lemma {:induction false} HostTaken(host: string, rest: string)
    requires (forall c :: c in host ==> IsHostChar(c)) && (rest != "" ==> !IsHostChar(rest[0]))
    ensures TakeHost(host + rest) == host
  {
    if host == "" {
      assert host + rest == rest;
    } else {
      assert (host + rest)[1..] == host[1..] + rest && host[0] in host;
      HostTaken(host[1..], rest);
    }
  }

  lemma MatchedSplits(line: string)
    ensures MatchedHost(line).Some? ==> Captures(line, MatchedHost(line).value)
  {
    if MatchedHost(line).Some? {
      var host := MatchedHost(line).value;
      var space := SkippedAre(line[7..]);
      var rest := SkipSpaces(line[7..])[|host|..];
      assert space != "";
      assert line == "machine" + space + host + rest;
      assert SplitsAs(line, space, host, rest);
    }
  }

  /** The expression captures a host exactly from such a line. */
  lemma MatchedIsCaptured(line: string, host: string)
    ensures MatchedHost(line) == Some(host) <==> Captures(line, host)
  {
    MatchedSplits(line);
    if Captures(line, host) {
      var space, rest :| SplitsAs(line, space, host, rest);
      assert line[7..] == space + (host + rest) && line[7] == space[0] && host[0] in host;
      assert (host + rest)[0] == host[0] && space[0] in space;
      SpacesSkipped(space, host + rest);
      HostTaken(host, rest);
    }
  }

  const COMMENT := "  # ubuntu-advantage-tools"

  function Prefix(repo: string): string {
    "machine " + repo + "/ login"
  }

  function AuthLine(repo: string, login: string, password: string): string {
    Prefix(repo) + " " + login + " password " + password + COMMENT
  }

  ghost predicate Replaces(repo: string, line: string) {
    MatchedHost(line) == Some(repo)
  }

  ghost predicate InsertsBefore(repo: string, line: string) {
    MatchedHost(line).Some? && MatchedHost(line).value != repo && Contains(repo, MatchedHost(line).value)
  }

  /** The new line is put at this line. */
  ghost predicate Places(repo: string, line: string) {
    Replaces(repo, line) || InsertsBefore(repo, line)
  }

  /** The lines one old line turns into. */
  ghost function Rewrite(repo: string, newLine: string, line: string): seq<string> {
    if Replaces(repo, line) then [newLine]
    else if InsertsBefore(repo, line) then [newLine, line]
    else [line]
  }

  ghost function RewriteAll(repo: string, newLine: string, lines: seq<string>): seq<string> {
    if lines == [] then []
    else RewriteAll(repo, newLine, lines[..|lines| - 1]) + Rewrite(repo, newLine, lines[|lines| - 1])
  }

  ghost predicate Mentions(repo: string, lines: seq<string>) {
    exists i | 0 <= i < |lines| :: Places(repo, lines[i])
  }

  ghost function Added(repo: string, newLine: string, lines: seq<string>): seq<string> {
    RewriteAll(repo, newLine, lines) + if Mentions(repo, lines) then [] else [newLine]
  }

  ghost function Removed(repo: string, lines: seq<string>): seq<string> {
    if lines == [] then []
    else
      var last := lines[|lines| - 1];
      Removed(repo, lines[..|lines| - 1]) + if Contains(last, Prefix(repo)) then [] else [last]
  }

  /** The host of the line is another part of the repository. */
  ghost predicate CapturesPart(line: string, repo: string) {
    exists host :: Captures(line, host) && host != repo && Occurs(host, repo)
  }

  lemma PlacedIsCaptured(repo: string, line: string)
    ensures Replaces(repo, line) <==> Captures(line, repo)
    ensures InsertsBefore(repo, line) <==> CapturesPart(line, repo)
  {
    MatchedIsCaptured(line, repo);
    if MatchedHost(line).Some? {
      var host := MatchedHost(line).value;
      MatchedIsCaptured(line, host);
      ContainsOccurs(repo, host);
    }
    if CapturesPart(line, repo) {
      var host :| Captures(line, host) && host != repo && Occurs(host, repo);
      MatchedIsCaptured(line, host);
      ContainsOccurs(repo, host);
    }
  }

  method RewriteLine(repo: string, newLine: string, line: string) returns (r: seq<string>, added: bool)
    ensures r == Rewrite(repo, newLine, line)
    ensures added <==> Places(repo, line)
    ensures r == if Captures(line, repo) then [newLine]
                 else if CapturesPart(line, repo) then [newLine, line]
                 else [line]
    ensures added <==> Captures(line, repo) || CapturesPart(line, repo)
  {
    PlacedIsCaptured(repo, line);
    r, added := [], false;
    var host := MatchedHost(line);
    if host.Some? {
      if host.value == repo {
        return [newLine], true;
      }
      if Contains(repo, host.value) {
        r, added := [newLine], true;
      }
    }
    r := r + [line];
  }

  lemma OneMoreLine(repo: string, newLine: string, lines: seq<string>, i: nat)
    requires i < |lines|
    ensures RewriteAll(repo, newLine, lines[..i + 1]) ==
      RewriteAll(repo, newLine, lines[..i]) + Rewrite(repo, newLine, lines[i])
    ensures Mentions(repo, lines[..i + 1]) <==> Mentions(repo, lines[..i]) || Places(repo, lines[i])
  {
    var front, more := lines[..i], lines[..i + 1];
    assert more[..i] == front && more[i] == lines[i];
    assert forall j :: 0 <= j < i ==> front[j] == more[j];
    if j :| 0 <= j < |more| && Places(repo, more[j]) {
      assert j < i ==> Places(repo, front[j]);
    }
    if j :| 0 <= j < |front| && Places(repo, front[j]) {
      assert Places(repo, more[j]);
    }
  }

  method NewLines(repo: string, newLine: string, orig: seq<string>) returns (newLines: seq<string>)
    ensures newLines == Added(repo, newLine, orig)
  {
    var addedNewAuth := false;
    newLines := [];
    for i := 0 to |orig|
      invariant newLines == RewriteAll(repo, newLine, orig[..i])
      invariant addedNewAuth == Mentions(repo, orig[..i])
    {
      OneMoreLine(repo, newLine, orig, i);
      var lines, added := RewriteLine(repo, newLine, orig[i]);
      newLines := newLines + lines;
      addedNewAuth := addedNewAuth || added;
    }
    assert orig[..|orig|] == orig;
    if !addedNewAuth {
      newLines := newLines + [newLine];
    }
  }

  lemma {:induction false} AddedHolds(repo: string, newLine: string, lines: seq<string>)
    ensures newLine in Added(repo, newLine, lines)
    ensures forall line :: line in lines && !Captures(line, repo) ==> line in Added(repo, newLine, lines)
  {
    forall line | line in lines && !Captures(line, repo) ensures line in RewriteAll(repo, newLine, lines) {
      MatchedIsCaptured(line, repo);
      KeptLine(repo, newLine, lines, line);
    }
    if Mentions(repo, lines) {
      RewritePlaces(repo, newLine, lines);
    }
  }

  lemma {:induction false} KeptLine(repo: string, newLine: string, lines: seq<string>, line: string)
    requires line in lines && !Replaces(repo, line)
    ensures line in RewriteAll(repo, newLine, lines)
  {
    var front, last := lines[..|lines| - 1], lines[|lines| - 1];
    assert lines == front + [last];
    if line == last {
      assert line in Rewrite(repo, newLine, last);
    } else {
      KeptLine(repo, newLine, front, line);
    }
  }

  lemma {:induction false} RemovedAre(repo: string, lines: seq<string>)
    ensures forall line :: line in Removed(repo, lines) <==>
      line in lines && !Occurs("machine " + repo + "/ login", line)
  {
    if lines == [] {
    } else {
      var front, last := lines[..|lines| - 1], lines[|lines| - 1];
      RemovedAre(repo, front);
      ContainsOccurs(last, Prefix(repo));
      assert lines == front + [last];
    }
  }

  /** The auth file; None when it does not exist. */
  class AuthFile {
    var content: Option<seq<string>>

    constructor (content: Option<seq<string>>)
      ensures this.content == content
    {
      this.content := content;
    }

    function Lines(): seq<string>
      reads this
    {
      if content.Some? then content.value else []
    }

    method AddEntry(repo: string, login: string, password: string)
      modifies this
      ensures content == Some(Added(repo, AuthLine(repo, login, password), old(Lines())))
      ensures
        var line := "machine " + repo + "/ login " + login + " password " + password + "  # ubuntu-advantage-tools";
        && line in content.value
        && (old(content).Some? ==>
              forall other :: other in old(content).value && !Captures(other, repo) ==> other in content.value)
    {
      AddedHolds(repo, AuthLine(repo, login, password), Lines());
      assert AuthLine(repo, login, password) ==
        "machine " + repo + "/ login " + login + " password " + password + "  # ubuntu-advantage-tools";
      var newLines := NewLines(repo, AuthLine(repo, login, password), Lines());
      content := Some(newLines);
    }

    /** Drops every line that contains the prefix anywhere; a file left without text is removed. */
    method RemoveEntry(repo: string)
      modifies this
      ensures old(content).None? ==> content == None
      ensures old(content).Some? ==> forall line :: line != "" ==>
        ((content.Some? && line in content.value) <==>
         line in old(content).value && !Occurs("machine " + repo + "/ login", line))
      ensures old(content).Some? ==>
        var kept := Removed(repo, old(Lines())); content == if kept == [] || kept == [""] then None else Some(kept)
    {
      RemovedAre(repo, Lines());
      if content.Some? {
        var lines, kept := content.value, [];
        for i := 0 to |lines|
          invariant kept == Removed(repo, lines[..i])
          invariant content == old(content)
        {
          assert lines[..i + 1][..i] == lines[..i];
          if !Contains(lines[i], Prefix(repo)) {
            kept := kept + [lines[i]];
          }
        }
        assert lines[..|lines|] == lines;
        content := if kept == [] || kept == [""] then None else Some(kept);
      }
    }

    /** Taking credentials away after adding them leaves what taking them away alone would have left, when the
        repository has a path component. */
    method AddThenRemove(repo: string, login: string, password: string)
      requires HasPath(repo)
      modifies this
      ensures var kept := Removed(repo, old(Lines()));
        content == if kept == [] || kept == [""] then None else Some(kept)
    {
      AddEntry(repo, login, password);
      RemoveAfterAdd(repo, login, password, old(Lines()));
      RemoveEntry(repo);
    }
  }

  ghost predicate HasPath(repo: string) {
    exists c :: c in repo && !IsHostChar(c)
  }

  lemma PathIsNoHost(repo: string, line: string)
    requires HasPath(repo)
    ensures !Replaces(repo, line)
  {
  }

  lemma PrefixInAuthLine(repo: string, login: string, password: string)
    ensures Contains(AuthLine(repo, login, password), Prefix(repo))
  {
    assert Prefix(repo) <= AuthLine(repo, login, password) == AuthLine(repo, login, password)[0..];
  }

  lemma {:induction false} RemovedOfConcat(repo: string, a: seq<string>, b: seq<string>)
    ensures Removed(repo, a + b) == Removed(repo, a) + Removed(repo, b)
  {
    if b == [] {
      assert a + b == a;
    } else {
      assert (a + b)[..|a + b| - 1] == a + b[..|b| - 1];
      RemovedOfConcat(repo, a, b[..|b| - 1]);
    }
  }

  lemma RemovedOne(repo: string, line: string)
    ensures Removed(repo, [line]) == if Contains(line, Prefix(repo)) then [] else [line]
  {
    assert [line][..0] == [];
  }

  lemma RemoveRewritten(repo: string, newLine: string, line: string)
    requires HasPath(repo) && Contains(newLine, Prefix(repo))
    ensures Removed(repo, Rewrite(repo, newLine, line)) == Removed(repo, [line])
  {
    PathIsNoHost(repo, line);
    if InsertsBefore(repo, line) {
      RemovedOne(repo, newLine);
      RemovedOfConcat(repo, [newLine], [line]);
      assert [newLine] + [line] == [newLine, line];
    }
  }

  lemma {:induction false} RemoveAfterRewrite(repo: string, newLine: string, lines: seq<string>)
    requires HasPath(repo) && Contains(newLine, Prefix(repo))
    ensures Removed(repo, RewriteAll(repo, newLine, lines)) == Removed(repo, lines)
  {
    if lines == [] {
    } else {
      var front, last := lines[..|lines| - 1], lines[|lines| - 1];
      RemoveAfterRewrite(repo, newLine, front);
      RemoveRewritten(repo, newLine, last);
      RemovedOfConcat(repo, RewriteAll(repo, newLine, front), Rewrite(repo, newLine, last));
      RemovedOne(repo, last);
    }
  }

  lemma RemoveAfterAdd(repo: string, login: string, password: string, lines: seq<string>)
    requires HasPath(repo)
    ensures Removed(repo, Added(repo, AuthLine(repo, login, password), lines)) == Removed(repo, lines)
  {
    var newLine := AuthLine(repo, login, password);
    PrefixInAuthLine(repo, login, password);
    RemoveAfterRewrite(repo, newLine, lines);
    RemovedOfConcat(repo, RewriteAll(repo, newLine, lines), if Mentions(repo, lines) then [] else [newLine]);
    assert [newLine][..0] == [];
  }

  /** All lines of a are found in b, in order. */
  ghost predicate Survives(a: seq<string>, b: seq<string>)
    decreases |b|
  {
    a == [] || (b != [] && (
      Survives(a, b[..|b| - 1]) || (a[|a| - 1] == b[|b| - 1] && Survives(a[..|a| - 1], b[..|b| - 1]))))
  }

  lemma {:induction false} SurvivesMore(a: seq<string>, b: seq<string>, more: seq<string>)
    requires Survives(a, b)
    ensures Survives(a, b + more)
  {
    if more == [] {
      assert b + more == b;
    } else {
      SurvivesMore(a, b, more[..|more| - 1]);
      assert (b + more)[..|b + more| - 1] == b + more[..|more| - 1];
    }
  }

  lemma SurvivesLine(a: seq<string>, b: seq<string>, more: seq<string>, line: string)
    requires Survives(a, b) && more != [] && more[|more| - 1] == line
    ensures Survives(a + [line], b + more)
  {
    SurvivesMore(a, b, more[..|more| - 1]);
    assert (b + more)[..|b + more| - 1] == b + more[..|more| - 1];
    assert (a + [line])[..|a|] == a;
  }

  /** No old line is overwritten by a different one. */
  ghost predicate NothingReplaced(repo: string, newLine: string, lines: seq<string>) {
    forall i :: 0 <= i < |lines| && Replaces(repo, lines[i]) ==> lines[i] == newLine
  }

  /** A line that is not overwritten stays, behind whatever is put before it. */
  lemma LineSurvives(repo: string, newLine: string, a: seq<string>, b: seq<string>, line: string)
    requires Survives(a, b) && (Replaces(repo, line) ==> line == newLine)
    ensures Survives(a + [line], b + Rewrite(repo, newLine, line))
  {
    var more := Rewrite(repo, newLine, line);
    assert more[|more| - 1] == line;
    SurvivesLine(a, b, more, line);
  }

  lemma {:induction false} RewriteSurvives(repo: string, newLine: string, lines: seq<string>)
    requires NothingReplaced(repo, newLine, lines)
    ensures Survives(lines, RewriteAll(repo, newLine, lines))
  {
    if lines == [] {
    } else {
      var front, last := lines[..|lines| - 1], lines[|lines| - 1];
      RewriteSurvives(repo, newLine, front);
      LineSurvives(repo, newLine, front, RewriteAll(repo, newLine, front), last);
      assert front + [last] == lines;
    }
  }

  lemma {:induction false} OverwrittenIsGone(repo: string, newLine: string, lines: seq<string>, line: string)
    requires Replaces(repo, line) && line != newLine
    ensures line !in RewriteAll(repo, newLine, lines)
  {
    if lines == [] {
    } else {
      OverwrittenIsGone(repo, newLine, lines[..|lines| - 1], line);
    }
  }

  lemma {:induction false} SurvivingLines(a: seq<string>, b: seq<string>)
    requires Survives(a, b)
    ensures forall x :: x in a ==> x in b
    decreases |b|
  {
    if a == [] {
    } else {
      if Survives(a, b[..|b| - 1]) {
        SurvivingLines(a, b[..|b| - 1]);
      } else {
        SurvivingLines(a[..|a| - 1], b[..|b| - 1]);
        assert a == a[..|a| - 1] + [b[|b| - 1]];
      }
    }
  }

  /** All old lines survive in order exactly when none is overwritten; a repository with a path never overwrites one,
      so that every repeated add makes the file longer. */
  lemma OldLinesSurvive(repo: string, newLine: string, lines: seq<string>)
    ensures Survives(lines, Added(repo, newLine, lines)) <==> NothingReplaced(repo, newLine, lines)
    ensures HasPath(repo) ==> NothingReplaced(repo, newLine, lines)
    ensures HasPath(repo) ==> |Added(repo, newLine, lines)| > |lines|
  {
    if NothingReplaced(repo, newLine, lines) {
      RewriteSurvives(repo, newLine, lines);
      SurvivesMore(lines, RewriteAll(repo, newLine, lines), if Mentions(repo, lines) then [] else [newLine]);
    } else {
      var i :| 0 <= i < |lines| && Replaces(repo, lines[i]) && lines[i] != newLine;
      OverwrittenIsGone(repo, newLine, lines, lines[i]);
      assert lines[i] in lines && lines[i] !in Added(repo, newLine, lines);
      if Survives(lines, Added(repo, newLine, lines)) {
        SurvivingLines(lines, Added(repo, newLine, lines));
        assert false;
      }
    }
    if HasPath(repo) {
      forall i | 0 <= i < |lines| ensures !Replaces(repo, lines[i]) {
        PathIsNoHost(repo, lines[i]);
      }
      RewriteGrows(repo, newLine, lines);
    }
  }

  lemma {:induction false} RewriteGrows(repo: string, newLine: string, lines: seq<string>)
    ensures |RewriteAll(repo, newLine, lines)| >= |lines|
    ensures HasPath(repo) && Mentions(repo, lines) ==> |RewriteAll(repo, newLine, lines)| > |lines|
  {
    if lines == [] {
    } else {
      var front, last := lines[..|lines| - 1], lines[|lines| - 1];
      RewriteGrows(repo, newLine, front);
      if HasPath(repo) {
        PathIsNoHost(repo, last);
      }
      assert Mentions(repo, lines) ==> Mentions(repo, front) || Places(repo, last) by {
        assert forall i :: 0 <= i < |front| ==> lines[i] == front[i];
      }
    }
  }

  /** An entry for the repository, with any whitespace after "machine". */
  ghost predicate IsFor(repo: string, line: string) {
    "machine" <= line && |line| > 7 && IsSpace(line[7]) && repo + "/ login" <= SkipSpaces(line[7..])
  }

  /** Every hit comes after an occurrence of the new line, or is one. */
  ghost predicate Behind(hit: string -> bool, newLine: string, lines: seq<string>) {
    forall j :: 0 <= j < |lines| && hit(lines[j]) ==> newLine in lines[..j + 1]
  }

  lemma BehindConcat(hit: string -> bool, newLine: string, a: seq<string>, b: seq<string>)
    requires Behind(hit, newLine, a) && Behind(hit, newLine, b)
    ensures Behind(hit, newLine, a + b)
  {
    forall j | 0 <= j < |a + b| && hit((a + b)[j]) ensures newLine in (a + b)[..j + 1] {
      if j < |a| {
        assert (a + b)[..j + 1] == a[..j + 1];
      } else {
        assert (a + b)[..j + 1] == a + b[..j - |a| + 1];
      }
    }
  }

  ghost function EntryFor(repo: string): string -> bool {
    line => IsFor(repo, line)
  }

  lemma {:induction false} TakeHostOfRepo(repo: string, rest: string)
    requires rest != "" && !IsHostChar(rest[0])
    ensures TakeHost(repo + rest) == TakeHost(repo)
  {
    if repo != [] {
      assert (repo + rest)[1..] == repo[1..] + rest;
      TakeHostOfRepo(repo[1..], rest);
    } else {
      assert repo + rest == rest;
    }
  }

  /** An entry for the repository is always found by the expression, through its host. */
  lemma OwnLineIsMatched(repo: string, line: string)
    requires repo != "" && IsHostChar(repo[0]) && IsFor(repo, line)
    ensures Places(repo, line)
  {
    var entry := SkipSpaces(line[7..]);
    var rest := "/ login" + entry[|repo + "/ login"|..];
    assert entry == repo + rest;
    TakeHostOfRepo(repo, rest);
    assert TakeHost(repo) != "";
    assert TakeHost(repo) <= repo[0..];
  }

  lemma SpaceSkipped(line: string, entry: string)
    requires line == "machine " + entry && entry != "" && !IsSpace(entry[0])
    ensures SkipSpaces(line[7..]) == entry
  {
    assert line[7..] == " " + entry && line[7..][1..] == entry;
  }

  lemma NewLineIsFor(repo: string, login: string, password: string)
    requires repo != "" && IsHostChar(repo[0])
    ensures IsFor(repo, AuthLine(repo, login, password))
  {
    var line := AuthLine(repo, login, password);
    var entry := repo + "/ login" + " " + login + " password " + password + COMMENT;
    assert line == "machine " + entry;
    SpaceSkipped(line, entry);
  }

  lemma {:induction false} RewriteBehind(repo: string, newLine: string, lines: seq<string>)
    requires repo != "" && IsHostChar(repo[0])
    ensures Behind(EntryFor(repo), newLine, RewriteAll(repo, newLine, lines))
  {
    if lines == [] {
    } else {
      var front, last := lines[..|lines| - 1], lines[|lines| - 1];
      RewriteBehind(repo, newLine, front);
      RewrittenBehind(repo, newLine, last);
      BehindConcat(EntryFor(repo), newLine, RewriteAll(repo, newLine, front), Rewrite(repo, newLine, last));
    }
  }

  lemma RewrittenBehind(repo: string, newLine: string, line: string)
    requires repo != "" && IsHostChar(repo[0])
    ensures Behind(EntryFor(repo), newLine, Rewrite(repo, newLine, line))
  {
    if IsFor(repo, line) {
      OwnLineIsMatched(repo, line);
    }
    assert Places(repo, line) ==> Rewrite(repo, newLine, line)[0] == newLine;
  }

  lemma {:induction false} RewritePlaces(repo: string, newLine: string, lines: seq<string>)
    requires Mentions(repo, lines)
    ensures newLine in RewriteAll(repo, newLine, lines)
  {
    var front, last := lines[..|lines| - 1], lines[|lines| - 1];
    if Places(repo, last) {
      assert Rewrite(repo, newLine, last)[0] == newLine;
    } else {
      var i :| 0 <= i < |lines| && Places(repo, lines[i]);
      assert front[i] == lines[i];
      RewritePlaces(repo, newLine, front);
    }
  }

  /** After an add, the first entry for the repository is the new credential line. */
  lemma NewLineComesFirst(repo: string, login: string, password: string, lines: seq<string>)
    requires repo != "" && IsHostChar(repo[0])
    ensures var newLine := AuthLine(repo, login, password);
      && IsFor(repo, newLine) && newLine in Added(repo, newLine, lines)
      && Behind(EntryFor(repo), newLine, Added(repo, newLine, lines))
  {
    var newLine := AuthLine(repo, login, password);
    NewLineIsFor(repo, login, password);
    RewriteBehind(repo, newLine, lines);
    if Mentions(repo, lines) {
      RewritePlaces(repo, newLine, lines);
    }
    assert Behind(EntryFor(repo), newLine, [newLine]);
    var added := if Mentions(repo, lines) then [] else [newLine];
    BehindConcat(EntryFor(repo), newLine, RewriteAll(repo, newLine, lines), added);
  }

  /** Adding credentials for a bare host overwrites the line of any repository below it. */
  lemma HostOverwritesPath(host: string, path: string, newLine: string)
    requires host != "" && path != "" && !IsHostChar(path[0]) && forall c :: c in host ==> IsHostChar(c)
    ensures Added(host, newLine, ["machine " + host + path]) == [newLine]
  {
    var line := "machine " + host + path;
    assert line == "machine" + " " + host + path && SplitsAs(line, " ", host, path);
    MatchedIsCaptured(line, host);
    OneLine(host, newLine, line);
  }

  lemma OneLine(repo: string, newLine: string, line: string)
    requires Replaces(repo, line)
    ensures Added(repo, newLine, [line]) == [newLine]
  {
    var lines: seq<string> := [line];
    assert Places(repo, lines[0]) && Mentions(repo, lines);
    assert lines[..|lines| - 1] == [];
    assert RewriteAll(repo, newLine, []) == [];
    assert RewriteAll(repo, newLine, lines) == [] + [newLine];
  }
}
