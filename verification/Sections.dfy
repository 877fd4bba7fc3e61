/**
 Two text protocols read back from a remote shell (internal/remote/exec.go): output cut into sections by
 marker lines, and one line's output followed by its exit code.
 */
module Sections {
  import opened Text

  const MARKER := "__OPSCORE_"
  const STEM := "__OPSCORE"

  // ---- The section parser, line by line ----

  datatype State = State(sections: map<string, string>, key: string, buf: string)

  const START := State(map[], "", "")

  function Flush(st: State): State {
    if st.key != "" then State(st.sections[st.key := Trim(st.buf)], "", "") else st
  }

  function StepLine(st: State, line: string): State {
    var idx := Find(line, MARKER);
    if idx < 0 then
      if st.key != "" then st.(buf := st.buf + line + "\n") else st
    else
      var flushed := Flush(if idx > 0 && st.key != "" then st.(buf := st.buf + line[..idx]) else st);
      var rest := line[idx + |MARKER|..];
      var end := Find(rest, "__");
      if end < 0 then flushed
      else flushed.(key := flushed.key + rest[..end], buf := flushed.buf + rest[end + 2..] + "\n")
  }

  function StepLines(lines: seq<string>): State {
    if lines == [] then START else StepLine(StepLines(lines[..|lines| - 1]), lines[|lines| - 1])
  }

  function Parsed(text: string): map<string, string> {
    Flush(StepLines(Split(text, '\n'))).sections
  }

  method ParseSections(text: string) returns (sections: map<string, string>)
    ensures sections == Parsed(text)
  {
    sections := map[];
    var key, b := "", "";
    var lines := Split(text, '\n');
    var i := 0;
    while i < |lines|
      invariant 0 <= i <= |lines|
      invariant StepLines(lines[..i]) == State(sections, key, b)
    {
      TakeSnoc(lines, i);
      StepLinesSnoc(lines[..i], lines[i]);
      var line := lines[i];
      i := i + 1;
      var idx := Find(line, MARKER);
      if idx < 0 {
        if key != "" {
          b := b + line;
          b := b + "\n";
        }
        continue;
      }
      if idx > 0 && key != "" {
        b := b + line[..idx];
      }
      if key != "" {
        sections := sections[key := Trim(b)];
        key, b := "", "";
      }
      var rest := line[idx + |MARKER|..];
      var end := Find(rest, "__");
      if end < 0 {
        continue;
      }
      key := key + rest[..end];
      b := b + rest[end + 2..];
      b := b + "\n";
    }
    assert lines[..i] == lines;
    if key != "" {
      sections := sections[key := Trim(b)];
    }
  }

  lemma StepLinesSnoc(lines: seq<string>, line: string)
    ensures StepLines(lines + [line]) == StepLine(StepLines(lines), line)
  {
    assert (lines + [line])[..|lines|] == lines;
  }

  // ---- Reading text as it comes ----

  /** The state after the complete lines of a text, and the line begun. */
  datatype Reading = Reading(st: State, begun: string)

  function Read(text: string): Reading {
    var lines := Split(text, '\n');
    Reading(StepLines(lines[..|lines| - 1]), lines[|lines| - 1])
  }

  function FeedChar(r: Reading, c: char): Reading {
    if c == '\n' then Reading(StepLine(r.st, r.begun), "") else Reading(r.st, r.begun + [c])
  }

  function Feed(r: Reading, more: string): Reading {
    if more == "" then r else FeedChar(Feed(r, more[..|more| - 1]), more[|more| - 1])
  }

  lemma ReadChar(text: string, c: char)
    ensures Read(text + [c]) == FeedChar(Read(text), c)
  {
    var lines := Split(text, '\n');
    assert (text + [c])[..|text|] == text;
    assert lines == lines[..|lines| - 1] + [lines[|lines| - 1]];
    StepLinesSnoc(lines[..|lines| - 1], lines[|lines| - 1]);
  }

  /** Reading goes on where it stopped. */
  lemma {:induction false} ReadFeed(text: string, more: string)
    ensures Read(text + more) == Feed(Read(text), more)
  {
    if more == "" {
      assert text + more == text;
    } else {
      var front, c := more[..|more| - 1], more[|more| - 1];
      assert text + more == (text + front) + [c];
      ReadFeed(text, front);
      ReadChar(text + front, c);
    }
  }

  lemma FeedSnoc(r: Reading, more: string, c: char)
    ensures Feed(r, more + [c]) == FeedChar(Feed(r, more), c)
  {
    assert (more + [c])[..|more|] == more;
  }

  lemma {:induction false} FeedAppend(r: Reading, a: string, b: string)
    ensures Feed(r, a + b) == Feed(Feed(r, a), b)
  {
    if b == "" {
      assert a + b == a;
    } else {
      var front, c := b[..|b| - 1], b[|b| - 1];
      FeedAppend(r, a, front);
      assert a + b == (a + front) + [c];
      FeedSnoc(r, a + front, c);
    }
  }

  lemma {:induction false} FeedPlain(r: Reading, more: string)
    requires '\n' !in more
    ensures Feed(r, more) == Reading(r.st, r.begun + more)
  {
    if more == "" {
      assert r.begun + more == r.begun;
    } else {
      var front, c := more[..|more| - 1], more[|more| - 1];
      FeedPlain(r, front);
      assert (r.begun + front) + [c] == r.begun + more;
    }
  }

  lemma ReadEnd(text: string)
    ensures Parsed(text) == Flush(StepLine(Read(text).st, Read(text).begun)).sections
  {
    var lines := Split(text, '\n');
    assert lines == lines[..|lines| - 1] + [lines[|lines| - 1]];
    StepLinesSnoc(lines[..|lines| - 1], lines[|lines| - 1]);
  }

  // ---- Finding the markers ----

  /** A key the parser can read back. */
  predicate GoodKey(key: string) {
    key != "" && !Contains(key, "__") && '\n' !in key && key[|key| - 1] != '_'
  }

  /** Text that neither contains a marker nor begins one that a following marker would complete. */
  predicate Clean(text: string) {
    !Contains(text, MARKER) && !EndsWith(text, STEM)
  }

  lemma OccursWithin(s: string, t: string, p: string, i: int)
    requires 0 <= i && i + |p| <= |s|
    ensures Occurs(s + t, p, i) <==> Occurs(s, p, i)
  {
    assert (s + t)[i..i + |p|] == s[i..i + |p|];
  }

  lemma DiffersAt(s: string, p: string, i: int, k: int)
    requires 0 <= i && i + |p| <= |s| && 0 <= k < |p| && s[i + k] != p[k]
    ensures !Occurs(s, p, i)
  {
    assert s[i..i + |p|][k] == s[i + k];
  }

  lemma FindIs(s: string, p: string, n: nat)
    requires Occurs(s, p, n) && forall i :: 0 <= i < n ==> !Occurs(s, p, i)
    ensures Find(s, p) == n
  {
  }

  lemma MarkerLetters(d: int)
    requires 1 <= d <= 8
    ensures MARKER[if d == 1 then 2 else d] != MARKER[if d == 1 then 1 else 0]
  {
  }

  /** A marker cannot begin d characters before another one. */
  lemma NoShiftedMarker(tail: string, rest: string, d: int)
    requires 1 <= d <= 8 && d <= |tail|
    ensures !Occurs(tail + MARKER + rest, MARKER, |tail| - d)
  {
    var s, k := tail + MARKER + rest, if d == 1 then 1 else 0;
    MarkerLetters(d);
    assert s[|tail| + k] == MARKER[k];
    DiffersAt(s, MARKER, |tail| - d, d + k);
  }

  /** Unless the text before ends in all but the last character of one. */
  lemma NoJoinedMarker(tail: string, rest: string)
    requires |tail| >= |STEM| && !EndsWith(tail, STEM)
    ensures !Occurs(tail + MARKER + rest, MARKER, |tail| - |STEM|)
  {
    var s, j := tail + MARKER + rest, |tail| - |STEM|;
    assert s[j..j + |MARKER|][..|STEM|] == tail[j..j + |STEM|];
    assert MARKER[..|STEM|] == STEM;
  }

  /** No occurrence of the marker begins in clean text before a marker. */
  lemma NoEarlierMarker(tail: string, rest: string, j: int)
    requires Clean(tail) && 0 <= j < |tail|
    ensures !Occurs(tail + MARKER + rest, MARKER, j)
  {
    if j + |MARKER| <= |tail| {
      OccursWithin(tail, MARKER + rest, MARKER, j);
      assert tail + MARKER + rest == tail + (MARKER + rest);
    } else if |tail| - j == |STEM| {
      NoJoinedMarker(tail, rest);
    } else {
      NoShiftedMarker(tail, rest, |tail| - j);
    }
  }

  lemma FindMarker(tail: string, rest: string)
    requires Clean(tail)
    ensures Find(tail + MARKER + rest, MARKER) == |tail|
  {
    var s := tail + MARKER + rest;
    assert s[|tail|..|tail| + |MARKER|] == MARKER;
    forall j | 0 <= j < |tail| ensures !Occurs(s, MARKER, j) {
      NoEarlierMarker(tail, rest, j);
    }
    FindIs(s, MARKER, |tail|);
  }

  /** The key ends at the first `__`, whatever follows it. */
  lemma FindKeyEnd(key: string, rest: string)
    requires GoodKey(key)
    ensures Find(key + "__" + rest, "__") == |key|
  {
    var s := key + "__" + rest;
    assert s[|key|..|key| + 2] == "__";
    assert s == key + ("__" + rest);
    forall j | 0 <= j < |key| ensures !Occurs(s, "__", j) {
      if j + 2 <= |key| {
        OccursWithin(key, "__" + rest, "__", j);
      } else {
        DiffersAt(s, "__", j, 0);
      }
    }
    FindIs(s, "__", |key|);
  }

  // ---- Reading a layout ----

  /** A key, what stands behind the marker on its line, and the lines below. */
  datatype Section = Section(key: string, inline: string, content: string)

  /** What the shell prints: some text first, then for each section its marker line and its content as it is. */
  function Layout(banner: string, sections: seq<Section>): string {
    if sections == [] then banner
    else
      var last := sections[|sections| - 1];
      Layout(banner, sections[..|sections| - 1]) + ((MARKER + last.key + "__" + last.inline) + "\n" + last.content)
  }

  lemma LayoutSnoc(banner: string, sections: seq<Section>, s: Section)
    ensures Layout(banner, sections + [s])
         == Layout(banner, sections) + (("__OPSCORE_" + s.key + "__" + s.inline) + "\n" + s.content)
    ensures Layout(banner, []) == banner
  {
    assert (sections + [s])[..|sections|] == sections;
  }

  /** The sections by key, trimmed. */
  function Recovered(sections: seq<Section>): map<string, string> {
    if sections == [] then map[]
    else
      var last := sections[|sections| - 1];
      Recovered(sections[..|sections| - 1])[last.key := Trim(last.inline + "\n" + last.content)]
  }

  /** The line begun is the end of what was fed. */
  lemma {:induction false} BegunIsSuffix(st: State, more: string)
    ensures var begun := Feed(Reading(st, ""), more).begun;
      |begun| <= |more| && begun == more[|more| - |begun|..]
  {
    if more != "" {
      BegunIsSuffix(st, more[..|more| - 1]);
    }
  }

  lemma SuffixOccurs(s: string, n: nat, p: string, i: nat)
    requires n <= |s| && Occurs(s[n..], p, i)
    ensures Occurs(s, p, n + i)
  {
    assert s[n..][i..i + |p|] == s[n + i..n + i + |p|];
  }

  lemma SuffixClean(s: string, n: nat)
    requires n <= |s|
    ensures !Contains(s, MARKER) ==> !Contains(s[n..], MARKER)
    ensures Clean(s) ==> Clean(s[n..])
  {
    var t := s[n..];
    if Contains(t, MARKER) {
      SuffixOccurs(s, n, MARKER, Find(t, MARKER));
    }
    if EndsWith(t, STEM) {
      SuffixOccurs(s, n, STEM, |t| - |STEM|);
    }
  }

  lemma PrefixUnmarked(s: string, n: nat)
    requires n <= |s| && !Contains(s, MARKER)
    ensures !Contains(s[..n], MARKER)
  {
    var t := s[..n];
    assert t + s[n..] == s;
    forall i | 0 <= i && i + |MARKER| <= n ensures !Occurs(t, MARKER, i) {
      OccursWithin(t, s[n..], MARKER, i);
    }
  }

  lemma StepContent(st: State, line: string)
    requires !Contains(line, MARKER)
    ensures StepLine(st, line) == if st.key != "" then st.(buf := st.buf + line + "\n") else st
  {
  }

  lemma Glue(a: string, b: string, base: string, front: string, c: char)
    requires a + b == base + front
    ensures (a + b + [c]) + "" == base + (front + [c]) && a + (b + [c]) == base + (front + [c])
  {
    assert a + (b + [c]) == (a + b) + [c];
  }

  /** What reading more content leaves: it gathers in the buffer and the line begun, or is passed over. */
  ghost predicate Gathered(st: State, more: string, r: Reading) {
    && r.st.sections == st.sections && r.st.key == st.key
    && (if st.key != "" then r.st.buf + r.begun == st.buf + more else r.st.buf == st.buf)
  }

  lemma GatherChar(st: State, front: string, r: Reading, c: char)
    requires Gathered(st, front, r) && !Contains(r.begun, MARKER)
    ensures Gathered(st, front + [c], if c == '\n' then Reading(StepLine(r.st, r.begun), "") else Reading(r.st, r.begun + [c]))
  {
    StepContent(r.st, r.begun);
    if st.key != "" {
      Glue(r.st.buf, r.begun, st.buf, front, c);
    }
  }

  lemma BegunClean(st: State, more: string)
    ensures var begun := Feed(Reading(st, ""), more).begun;
      (!Contains(more, MARKER) ==> !Contains(begun, MARKER)) && (Clean(more) ==> Clean(begun))
  {
    BegunIsSuffix(st, more);
    SuffixClean(more, |more| - |Feed(Reading(st, ""), more).begun|);
  }

  lemma {:induction false} FeedContent(st: State, more: string)
    requires !Contains(more, MARKER)
    ensures Gathered(st, more, Feed(Reading(st, ""), more))
  {
    if more != "" {
      var front, c := more[..|more| - 1], more[|more| - 1];
      assert more == front + [c];
      PrefixUnmarked(more, |more| - 1);
      FeedContent(st, front);
      BegunClean(st, front);
      GatherChar(st, front, Feed(Reading(st, ""), front), c);
    }
  }

  lemma FeedClean(st: State, more: string)
    requires Clean(more)
    ensures Gathered(st, more, Feed(Reading(st, ""), more)) && Clean(Feed(Reading(st, ""), more).begun)
  {
    FeedContent(st, more);
    BegunClean(st, more);
  }

  /** The state once the line begun and the section that is open are closed off. */
  function Closed(r: Reading): State {
    Flush(if r.st.key != "" then r.st.(buf := r.st.buf + r.begun) else r.st)
  }

  lemma MarkerLine(tail: string, key: string, inline: string)
    requires GoodKey(key) && Clean(tail)
    ensures var line, rest := tail + (MARKER + key + "__" + inline), key + "__" + inline;
      && Find(line, MARKER) == |tail| && line[..|tail|] == tail
      && line[|tail| + |MARKER|..] == rest && Find(rest, "__") == |key|
      && rest[..|key|] == key && rest[|key| + 2..] == inline
  {
    var line, rest := tail + (MARKER + key + "__" + inline), key + "__" + inline;
    assert line == tail + MARKER + rest;
    FindMarker(tail, rest);
    FindKeyEnd(key, inline);
  }

  /** A marker, glued to whatever line was begun, closes the open section and opens the next. */
  lemma StepMarker(r: Reading, key: string, inline: string)
    requires GoodKey(key) && Clean(r.begun)
    ensures StepLine(r.st, r.begun + (MARKER + key + "__" + inline))
         == State(Closed(r).sections, Closed(r).key + key, Closed(r).buf + inline + "\n")
  {
    MarkerLine(r.begun, key, inline);
    assert r.begun == "" ==> r.st.buf + r.begun == r.st.buf;
  }

  lemma FeedMarker(r: Reading, key: string, inline: string)
    requires GoodKey(key) && Clean(r.begun) && '\n' !in inline
    ensures Feed(r, (MARKER + key + "__" + inline) + "\n")
         == Reading(State(Closed(r).sections, Closed(r).key + key, Closed(r).buf + inline + "\n"), "")
  {
    var mark := MARKER + key + "__" + inline;
    assert '\n' !in mark;
    FeedPlain(r, mark);
    FeedSnoc(r, mark, '\n');
    StepMarker(r, key, inline);
  }

  /** A section is open: the ones before it are recovered, and its content is in the buffer and the line begun. */
  ghost predicate Open(r: Reading, done: map<string, string>, s: Section) {
    Clean(r.begun) && r.st.sections == done && r.st.key == s.key && r.st.buf + r.begun == s.inline + "\n" + s.content
  }

  ghost predicate GoodSection(s: Section) {
    GoodKey(s.key) && '\n' !in s.inline && Clean(s.content)
  }

  lemma FeedSection(r: Reading, s: Section)
    requires GoodSection(s) && Clean(r.begun) && Closed(r).key == Closed(r).buf == ""
    ensures Open(Feed(r, (MARKER + s.key + "__" + s.inline) + "\n" + s.content), Closed(r).sections, s)
  {
    FeedMarker(r, s.key, s.inline);
    assert "" + s.key == s.key && "" + s.inline + "\n" == s.inline + "\n";
    FeedAppend(r, (MARKER + s.key + "__" + s.inline) + "\n", s.content);
    FeedClean(State(Closed(r).sections, s.key, s.inline + "\n"), s.content);
  }

  lemma TrimEnded(text: string)
    ensures Trim(text + "\n") == Trim(text)
  {
    TrimPadded("", text, "\n");
    assert "" + text + "\n" == text + "\n";
  }

  /** After a layout, closing off completes what is recovered. */
  lemma {:induction false} ReadLayout(banner: string, sections: seq<Section>)
    requires Clean(banner) && forall i :: 0 <= i < |sections| ==> GoodSection(sections[i])
    ensures var r := Read(Layout(banner, sections));
      && Clean(r.begun) && Closed(r) == State(Recovered(sections), "", "")
      && (sections == [] ==> r.st == START)
      && (sections != [] ==> Open(r, Recovered(sections[..|sections| - 1]), sections[|sections| - 1]))
  {
    if sections == [] {
      ReadBanner(banner);
    } else {
      var front, last := sections[..|sections| - 1], sections[|sections| - 1];
      ReadLayout(banner, front);
      ReadFeed(Layout(banner, front), (MARKER + last.key + "__" + last.inline) + "\n" + last.content);
      FeedSection(Read(Layout(banner, front)), last);
    }
  }

  lemma ReadBanner(banner: string)
    requires Clean(banner)
    ensures Read(banner).st == START && Clean(Read(banner).begun)
  {
    assert "" + banner == banner;
    ReadFeed("", banner);
    FeedClean(START, banner);
  }

  /**
   The parser undoes the layout: every key comes back with its trimmed content, which begins on the marker's own
   line; the last one wins where a key repeats, whether or not contents end in a newline, and whatever clean text
   comes first.
   */
  lemma SectionsRoundTrip(banner: string, sections: seq<Section>)
    requires Clean(banner) && forall i :: 0 <= i < |sections| ==> GoodSection(sections[i])
    ensures Parsed(Layout(banner, sections)) == Recovered(sections)
  {
    var text := Layout(banner, sections);
    ReadLayout(banner, sections);
    ReadEnd(text);
    StepContent(Read(text).st, Read(text).begun);
    if sections != [] {
      var last := sections[|sections| - 1];
      TrimEnded(last.inline + "\n" + last.content);
    }
  }

  lemma UnclosedLine(tail: string, junk: string)
    requires Clean(tail) && !Contains(junk, "__")
    ensures var line := tail + (MARKER + junk);
      && Find(line, MARKER) == |tail| && line[..|tail|] == tail && line[|tail| + |MARKER|..] == junk && Find(junk, "__") < 0
  {
    FindMarker(tail, junk);
    assert tail + (MARKER + junk) == tail + MARKER + junk;
  }

  lemma StepUnclosed(r: Reading, junk: string)
    requires Clean(r.begun) && !Contains(junk, "__")
    ensures StepLine(r.st, r.begun + (MARKER + junk)) == Closed(r)
  {
    UnclosedLine(r.begun, junk);
    assert r.begun == "" ==> r.st.buf + r.begun == r.st.buf;
  }

  lemma FeedUnclosed(r: Reading, junk: string)
    requires Clean(r.begun) && !Contains(junk, "__") && '\n' !in junk
    ensures Feed(r, (MARKER + junk) + "\n") == Reading(Closed(r), "")
  {
    var mark := MARKER + junk;
    assert '\n' !in mark;
    FeedPlain(r, mark);
    FeedSnoc(r, mark, '\n');
    StepUnclosed(r, junk);
  }

  /** A marker whose key never ends closes the section before it, and what follows belongs to none. */
  lemma UnclosedMarker(banner: string, sections: seq<Section>, junk: string, after: string)
    requires Clean(banner) && forall i :: 0 <= i < |sections| ==> GoodSection(sections[i])
    requires !Contains(junk, "__") && '\n' !in junk && !Contains(after, MARKER)
    ensures Parsed(Layout(banner, sections) + ((MARKER + junk) + "\n" + after)) == Recovered(sections)
  {
    var text := Layout(banner, sections);
    ReadLayout(banner, sections);
    ReadFeed(text, (MARKER + junk) + "\n" + after);
    FeedAppend(Read(text), (MARKER + junk) + "\n", after);
    FeedUnclosed(Read(text), junk);
    FeedContent(Closed(Read(text)), after);
    BegunClean(Closed(Read(text)), after);
    ReadEnd(text + ((MARKER + junk) + "\n" + after));
    var r := Read(text + ((MARKER + junk) + "\n" + after));
    StepContent(r.st, r.begun);
  }

  /** With distinct keys, each one is recovered with its own content. */
  lemma {:induction false} DistinctKeysRecovered(sections: seq<Section>, i: nat)
    requires i < |sections| && forall j, k :: 0 <= j < k < |sections| ==> sections[j].key != sections[k].key
    ensures sections[i].key in Recovered(sections) && Recovered(sections)[sections[i].key] == Trim(sections[i].inline + "\n" + sections[i].content)
  {
    var n := |sections| - 1;
    if i < n {
      assert sections[..n][i] == sections[i] && sections[i].key != sections[n].key;
      DistinctKeysRecovered(sections[..n], i);
    }
  }

  /** And nothing else is. */
  lemma {:induction false} OnlyKeysRecovered(sections: seq<Section>, key: string)
    ensures key in Recovered(sections) ==> exists j :: 0 <= j < |sections| && sections[j].key == key
  {
    var n := |sections| - 1;
    if n >= 0 && key in Recovered(sections) && key != sections[n].key {
      OnlyKeysRecovered(sections[..n], key);
      var j :| 0 <= j < n && sections[..n][j].key == key;
      assert sections[j].key == key;
    }
  }

  // ---- Which keys can come back ----

  ghost predicate KeysGood(st: State) {
    (st.key == "" || GoodKey(st.key)) && forall k :: k in st.sections ==> GoodKey(k)
  }

  lemma FirstKeyGood(rest: string)
    requires '\n' !in rest && Find(rest, "__") > 0
    ensures GoodKey(rest[..Find(rest, "__")])
  {
    var end := Find(rest, "__");
    var key := rest[..end];
    assert key + rest[end..] == rest;
    forall i | 0 <= i && i + 2 <= end ensures !Occurs(key, "__", i) {
      OccursWithin(key, rest[end..], "__", i);
    }
    assert rest[end..end + 2][0] == rest[end];
    NotUnderscore(rest, end - 1);
  }

  lemma NotUnderscore(s: string, i: nat)
    requires i + 2 <= |s| && !Occurs(s, "__", i) && s[i + 1] == '_'
    ensures s[i] != '_'
  {
    assert s[i..i + 2] == [s[i], '_'];
  }

  lemma StepKeysGood(st: State, line: string)
    requires KeysGood(st) && '\n' !in line
    ensures KeysGood(StepLine(st, line))
  {
    var idx := Find(line, MARKER);
    if idx >= 0 {
      var rest := line[idx + |MARKER|..];
      var end := Find(rest, "__");
      if end > 0 {
        FirstKeyGood(rest);
        assert "" + rest[..end] == rest[..end];
      } else if end == 0 {
        assert "" + rest[..end] == "";
      }
    }
  }

  lemma {:induction false} StepLinesKeysGood(lines: seq<string>)
    requires forall i :: 0 <= i < |lines| ==> '\n' !in lines[i]
    ensures KeysGood(StepLines(lines))
  {
    if lines != [] {
      StepLinesKeysGood(lines[..|lines| - 1]);
      StepKeysGood(StepLines(lines[..|lines| - 1]), lines[|lines| - 1]);
    }
  }

  /** Whatever the remote prints, no other keys come out than those the round trip asks for. */
  lemma OnlyGoodKeys(text: string, key: string)
    requires key in Parsed(text)
    ensures GoodKey(key)
  {
    SplitJoin(text, '\n');
    StepLinesKeysGood(Split(text, '\n'));
  }

  lemma {:induction false} KeyIsRecovered(sections: seq<Section>, i: nat)
    requires i < |sections|
    ensures sections[i].key in Recovered(sections)
  {
    if i < |sections| - 1 {
      assert sections[..|sections| - 1][i] == sections[i];
      KeyIsRecovered(sections[..|sections| - 1], i);
    }
  }

  /** So with clean contents the parser undoes the layout exactly if every key is of that form. */
  lemma SectionsIff(banner: string, sections: seq<Section>)
    requires Clean(banner) && forall i :: 0 <= i < |sections| ==> '\n' !in sections[i].inline && Clean(sections[i].content)
    ensures Parsed(Layout(banner, sections)) == Recovered(sections)
       <==> forall i :: 0 <= i < |sections| ==> GoodKey(sections[i].key)
  {
    if i: nat :| i < |sections| && !GoodKey(sections[i].key) {
      KeyIsRecovered(sections, i);
      if Parsed(Layout(banner, sections)) == Recovered(sections) {
        OnlyGoodKeys(Layout(banner, sections), sections[i].key);
      }
    } else {
      SectionsRoundTrip(banner, sections);
    }
  }

  /** And a key is read back exactly if it is not empty, has no `__` or newline inside and no `_` at its end. */
  lemma KeyComesBack(key: string, content: string)
    requires Clean(content)
    ensures key in Parsed(Layout("", [Section(key, "", content)])) <==>
            key != "" && '\n' !in key && key[|key| - 1] != '_'
            && forall i :: 0 <= i < |key| - 1 ==> !(key[i] == '_' && key[i + 1] == '_')
  {
    var section := Section(key, "", content);
    var text := Layout("", [section]);
    if GoodKey(key) {
      SectionsRoundTrip("", [section]);
      DistinctKeysRecovered([section], 0);
    }
    if key in Parsed(text) {
      OnlyGoodKeys(text, key);
    }
    DoubleUnderscore(key);
  }

  lemma DoubleUnderscore(key: string)
    ensures Contains(key, "__") <==> exists i :: 0 <= i < |key| - 1 && key[i] == '_' && key[i + 1] == '_'
  {
    if Contains(key, "__") {
      var i := Find(key, "__");
      assert key[i..i + 2][0] == key[i] && key[i..i + 2][1] == key[i + 1];
    }
    if i :| 0 <= i < |key| - 1 && key[i] == '_' && key[i + 1] == '_' {
      assert key[i..i + 2] == "__";
      assert Occurs(key, "__", i);
    }
  }

  // ---- The exit code after the output ----

  const EXIT := "__EXIT__"

  function LeadingDigits(s: string): (n: nat)
    ensures n <= |s| && Numeric(s[..n])
  {
    if s != "" && '0' <= s[0] <= '9' then
      var n := LeadingDigits(s[1..]);
      assert s[..n + 1] == [s[0]] + s[1..][..n];
      n + 1
    else 0
  }

  /** Scanning one integer: what cannot be read leaves 0. */
  function ScanInt(s: string): int {
    var signed := s != "" && s[0] in "+-";
    var digits := if signed then s[1..] else s;
    var n := LeadingDigits(digits);
    var read := Atoi((if signed then [s[0]] else "") + digits[..n]);
    if n > 0 && read.Some? then read.value else 0
  }

  function TrimNewline(s: string): string {
    if s != "" && s[|s| - 1] == '\n' then s[..|s| - 1] else s
  }

  /** Output and exit code; -1 when the shell never printed its marker. */
  function ReadTrailer(out: string): (string, int) {
    var idx := FindLast(out, EXIT);
    if idx < 0 then (out, -1) else (TrimNewline(out[..idx]), ScanInt(Trim(out[idx + |EXIT|..])))
  }

  lemma NoLaterExit(output: string, rest: string, i: int)
    requires 'E' !in rest && i > |output|
    ensures !Occurs(output + EXIT + rest, EXIT, i)
  {
    var s := output + EXIT + rest;
    if i + |EXIT| <= |s| {
      var d := i - |output|;
      assert s[i + 2] == if d + 2 < |EXIT| then EXIT[d + 2] else rest[d + 2 - |EXIT|];
      assert d + 2 < |EXIT| ==> EXIT[d + 2] != 'E';
      DiffersAt(s, EXIT, i, 2);
    }
  }

  lemma {:induction false} AllDigitsLead(s: string)
    requires Numeric(s)
    ensures LeadingDigits(s) == |s|
  {
    if s != "" {
      AllDigitsLead(s[1..]);
    }
  }

  lemma ScanNumeral(n: nat, after: string)
    requires n <= MAX_INT64 && Blank(after)
    ensures ScanInt(Trim(Itoa(n) + after)) == n
  {
    AtoiItoa(n);
    TrimDigits(Itoa(n), after);
    ScanDigits(Itoa(n));
  }

  lemma TrimDigits(s: string, after: string)
    requires s != "" && Numeric(s) && Blank(after)
    ensures Trim(s + after) == s
  {
    assert !IsSpace(s[0]) && !IsSpace(s[|s| - 1]);
    TrimCore("", s, after);
    assert "" + s + after == s + after;
  }

  lemma ScanDigits(s: string)
    requires s != "" && Numeric(s) && Atoi(s).Some?
    ensures ScanInt(s) == Atoi(s).value
  {
    AllDigitsLead(s);
    assert s[0] !in "+-";
    assert "" + s[..|s|] == s;
  }

  lemma NoLetter(digits: string, after: string)
    requires Numeric(digits) && Blank(after)
    ensures 'E' !in digits + after
  {
    assert !IsSpace('E');
  }

  /** Output and code come back, less one final newline, even if the output itself has the marker in it. */
  lemma TrailerRoundTrip(output: string, code: nat, after: string)
    requires code <= MAX_INT64 && Blank(after)
    ensures ReadTrailer(output + "__EXIT__" + (Itoa(code) + after)) == (TrimNewline(output), code)
    ensures TrimNewline(output + "\n") == output && (output == "" || output[|output| - 1] != '\n' ==> TrimNewline(output) == output)
  {
    var rest := Itoa(code) + after;
    var s := output + EXIT + rest;
    NoLetter(Itoa(code), after);
    assert s[|output|..|output| + |EXIT|] == EXIT;
    assert Occurs(s, EXIT, |output|);
    forall i | |output| < i <= |s| ensures !Occurs(s, EXIT, i) {
      NoLaterExit(output, rest, i);
    }
    assert FindLast(s, EXIT) == |output|;
    assert s[..|output|] == output && s[|output| + |EXIT|..] == rest;
    ScanNumeral(code, after);
  }

  lemma {:induction false} LeadingOf(digits: string, rest: string)
    requires Numeric(digits) && (rest == "" || !('0' <= rest[0] <= '9'))
    ensures LeadingDigits(digits + rest) == |digits|
  {
    if digits == "" {
      assert digits + rest == rest;
    } else {
      assert (digits + rest)[1..] == digits[1..] + rest;
      LeadingOf(digits[1..], rest);
    }
  }

  lemma ScanUnsigned(digits: string, rest: string)
    requires Numeric(digits) && (rest == "" || !('0' <= rest[0] <= '9'))
    requires digits == "" ==> rest == "" || (rest[0] != '+' && rest[0] != '-')
    ensures ScanInt(digits + rest) == if digits != "" && Atoi(digits).Some? then Atoi(digits).value else 0
  {
    var s := digits + rest;
    LeadingOf(digits, rest);
    assert s != "" ==> s[0] == if digits != "" then digits[0] else rest[0];
    assert s[..|digits|] == digits && [] + digits == digits;
  }

  lemma ScanSigned(sign: char, digits: string, rest: string)
    requires sign == '+' || sign == '-'
    requires Numeric(digits) && (rest == "" || !('0' <= rest[0] <= '9'))
    ensures ScanInt([sign] + (digits + rest))
         == if digits != "" && Atoi([sign] + digits).Some? then Atoi([sign] + digits).value else 0
  {
    var s := [sign] + (digits + rest);
    LeadingOf(digits, rest);
    assert s[1..] == digits + rest && (digits + rest)[..|digits|] == digits;
  }

  /** What is read is the number a text begins with, up to the first character that is no digit, and 0 if it begins with none. */
  lemma ScanReads(digits: string, rest: string, n: nat)
    requires Numeric(digits) && Decimal(digits) == n <= 9223372036854775807 && (rest == "" || !('0' <= rest[0] <= '9'))
    ensures digits != "" ==> ScanInt(digits + rest) == n && ScanInt(['-'] + (digits + rest)) == 0 - n
    ensures digits == "" ==> ScanInt(['-'] + (digits + rest)) == 0
    ensures digits == "" && (rest == "" || (rest[0] != '+' && rest[0] != '-')) ==> ScanInt(digits + rest) == 0
  {
    ScanSigned('-', digits, rest);
    if digits != "" || rest == "" || (rest[0] != '+' && rest[0] != '-') {
      ScanUnsigned(digits, rest);
    }
    if digits != "" {
      AtoiSigns(digits, n);
    }
  }

  /** Without the marker the whole text is output, and the code says that none came. */
  lemma NoTrailer(out: string)
    requires forall i :: !Occurs(out, "__EXIT__", i)
    ensures ReadTrailer(out) == (out, -1)
  {
    assert !Occurs(out, EXIT, FindLast(out, EXIT));
  }
}
