/** The logs as text: records are printed as `;`-separated fields, one per
    line, and read back with Scanner.next and String.split. */
module LogText {
  import opened CommitTypes
  import SL = ServerLog
  import Coordinator

  // ----- separators -----

  predicate Whitespace(c: char) {
    c == ' ' || c == '\n' || c == '\r' || c == '\t'
  }

  predicate Solid(s: string) {
    forall c :: c in s ==> !Whitespace(c)
  }

  /** The names the log format can carry. */
  predicate Clean(name: string) {
    name != "" && ';' !in name && ':' !in name && Solid(name)
  }

  /** Every field between separators, empty ones included. */
  function SplitAll(s: string, sep: char): (fields: seq<string>)
    ensures fields != []
  {
    if s == "" then [""]
    else
      var rest := SplitAll(s[1..], sep);
      if s[0] == sep then [""] + rest else [[s[0]] + rest[0]] + rest[1..]
  }

  function DropTrailingEmpty(fields: seq<string>): seq<string> {
    if fields != [] && fields[|fields| - 1] == "" then DropTrailingEmpty(fields[..|fields| - 1]) else fields
  }

  /** java.lang.String.split for a one-character pattern. */
  function Split(s: string, sep: char): seq<string> {
    if sep in s then DropTrailingEmpty(SplitAll(s, sep)) else [s]
  }

  function Join(fields: seq<string>, sep: char): string
    requires fields != []
  {
    if |fields| == 1 then fields[0] else fields[0] + [sep] + Join(fields[1..], sep)
  }

  lemma {:induction false} SplitAllPrefix(field: string, s: string, sep: char)
    requires sep !in field
    ensures SplitAll(field + s, sep) == [field + SplitAll(s, sep)[0]] + SplitAll(s, sep)[1..]
  {
    var fields := SplitAll(s, sep);
    if field == "" {
      assert field + s == s && field + fields[0] == fields[0];
    } else {
      SplitAllPrefix(field[1..], s, sep);
      assert (field + s)[1..] == field[1..] + s;
      assert [field[0]] + (field[1..] + fields[0]) == field + fields[0];
    }
  }

  lemma {:induction false} SplitAllJoin(fields: seq<string>, sep: char)
    requires fields != [] && forall f :: f in fields ==> sep !in f
    ensures SplitAll(Join(fields, sep), sep) == fields
  {
    if |fields| == 1 {
      SplitAllPrefix(fields[0], "", sep);
      assert fields[0] + "" == fields[0] && [fields[0]] == fields;
    } else {
      var rest := [sep] + Join(fields[1..], sep);
      SplitAllJoin(fields[1..], sep);
      assert rest[1..] == Join(fields[1..], sep);
      SplitAllPrefix(fields[0], rest, sep);
      assert fields[0] + [sep] + Join(fields[1..], sep) == fields[0] + rest;
      assert fields[0] + "" == fields[0];
      assert [fields[0]] + fields[1..] == fields;
    }
  }

  lemma {:induction false} JoinHasSeparator(fields: seq<string>, sep: char)
    requires |fields| > 1
    ensures sep in Join(fields, sep)
  {
  }

  /** Splitting undoes joining. */
  lemma SplitJoin(fields: seq<string>, sep: char)
    requires |fields| > 1 && fields[|fields| - 1] != "" && forall f :: f in fields ==> sep !in f
    ensures Split(Join(fields, sep), sep) == fields
  {
    SplitAllJoin(fields, sep);
    JoinHasSeparator(fields, sep);
  }

  /** One trailing separator makes no difference. */
  lemma SplitJoinTrailing(fields: seq<string>, sep: char)
    requires |fields| > 1 && fields[|fields| - 1] != "" && forall f :: f in fields ==> sep !in f
    ensures Split(Join(fields, sep) + [sep], sep) == fields
  {
    var padded := fields + [""];
    JoinSnoc(fields, "", sep);
    assert Join(fields, sep) + [sep] + "" == Join(fields, sep) + [sep];
    SplitAllJoin(padded, sep);
    JoinHasSeparator(padded, sep);
    assert padded[..|padded| - 1] == fields;
    assert DropTrailingEmpty(fields) == fields;
  }

  lemma {:induction false} JoinSnoc(fields: seq<string>, last: string, sep: char)
    requires fields != []
    ensures Join(fields + [last], sep) == Join(fields, sep) + [sep] + last
  {
    if |fields| > 1 {
      JoinSnoc(fields[1..], last, sep);
      assert (fields + [last])[1..] == fields[1..] + [last];
    }
  }

  // ----- sources -----

  function PrintSource(s: Source): string {
    s.user + ":" + s.image
  }

  /** source.split(":")[0] and [1]. */
  function ParseSource(text: string): Source {
    var fields := Split(text, ':');
    Source(if |fields| > 0 then fields[0] else "", if |fields| > 1 then fields[1] else "")
  }

  function PrintSources(sources: seq<Source>): seq<string> {
    seq(|sources|, i requires 0 <= i < |sources| => PrintSource(sources[i]))
  }

  function ParseSources(fields: seq<string>): seq<Source> {
    seq(|fields|, i requires 0 <= i < |fields| => ParseSource(fields[i]))
  }

  ghost predicate CleanSources(sources: seq<Source>) {
    forall s :: s in sources ==> Clean(s.user) && Clean(s.image)
  }

  lemma SourceRoundTrip(s: Source)
    requires Clean(s.user) && Clean(s.image)
    ensures ParseSource(PrintSource(s)) == s
    ensures PrintSource(s) != "" && ';' !in PrintSource(s)
    ensures forall i :: 0 <= i < |PrintSource(s)| ==> !Whitespace(PrintSource(s)[i])
  {
    var fields := [s.user, s.image];
    assert fields[1..] == [s.image];
    assert Join(fields, ':') == PrintSource(s);
    SplitJoin(fields, ':');
  }

  lemma SourcesRoundTrip(sources: seq<Source>)
    requires CleanSources(sources)
    ensures ParseSources(PrintSources(sources)) == sources
    ensures forall t :: t in PrintSources(sources) ==> Fieldlike(t)
  {
    forall i | 0 <= i < |sources|
      ensures ParseSources(PrintSources(sources))[i] == sources[i] && Fieldlike(PrintSources(sources)[i])
    {
      SourceRoundTrip(sources[i]);
    }
  }

  /** What may stand between two semicolons on one line. */
  predicate Fieldlike(t: string) {
    t != "" && ';' !in t && Solid(t)
  }

  // ----- one record, one line -----

  /** Each source preceded by a semicolon, as startCommit writes them. */
  function Leading(fields: seq<string>): string {
    if fields == [] then "" else ";" + fields[0] + Leading(fields[1..])
  }

  /** Each source followed by a semicolon, as getMessage writes them. */
  function Trailing(fields: seq<string>): string {
    if fields == [] then "" else fields[0] + ";" + Trailing(fields[1..])
  }

  function Print(r: ServerRecord): string {
    match r
    case StartCommit(f, sources) => "startCommit;" + f + Leading(PrintSources(sources))
    case Decided(f, d, sources) =>
      if d then "Decision;" + f + ";true" + ";" + Trailing(PrintSources(sources))
      else "Decision;" + f + ";false"
    case Committed(f) => "Committed;" + f
  }

  /** The branches of doFailure on one line; an unknown status is skipped. */
  function Parse(line: string): SL.Option<ServerRecord> {
    var fields := Split(line, ';');
    if |fields| < 2 then SL.None
    else if fields[0] == "startCommit" then SL.Some(StartCommit(fields[1], ParseSources(fields[2..])))
    else if fields[0] == "Decision" && |fields| > 2 then
      SL.Some(Decided(fields[1], fields[2] == "true", ParseSources(fields[3..])))
    else if fields[0] == "Committed" then SL.Some(Committed(fields[1]))
    else SL.None
  }

  ghost predicate CleanRecord(r: ServerRecord) {
    && Clean(r.fileName)
    && (r.StartCommit? || r.Decided? ==> CleanSources(r.sources))
    && (r.Decided? && !r.commit ==> r.sources == [])
  }

  lemma {:induction false} LeadingJoin(head: seq<string>, fields: seq<string>)
    requires head != []
    ensures Join(head, ';') + Leading(fields) == Join(head + fields, ';')
    decreases |fields|
  {
    if fields == [] {
      assert head + fields == head;
      assert Join(head, ';') + "" == Join(head, ';');
    } else {
      JoinSnoc(head, fields[0], ';');
      LeadingJoin(head + [fields[0]], fields[1..]);
      assert head + [fields[0]] + fields[1..] == head + fields;
      assert Join(head, ';') + (";" + fields[0] + Leading(fields[1..]))
          == (Join(head, ';') + [';'] + fields[0]) + Leading(fields[1..]);
    }
  }

  lemma {:induction false} TrailingLeading(fields: seq<string>)
    ensures ";" + Trailing(fields) == Leading(fields) + ";"
  {
    if fields != [] {
      TrailingLeading(fields[1..]);
      assert ";" + Trailing(fields) == ";" + fields[0] + (";" + Trailing(fields[1..]));
      assert Leading(fields) + ";" == ";" + fields[0] + (Leading(fields[1..]) + ";");
    }
  }

  /** Fields of a printed record: the line is their join, perhaps with one
      semicolon more. */
  function Fields(r: ServerRecord): seq<string> {
    match r
    case StartCommit(f, sources) => ["startCommit", f] + PrintSources(sources)
    case Decided(f, d, sources) =>
      if d then ["Decision", f, "true"] + PrintSources(sources) else ["Decision", f, "false"]
    case Committed(f) => ["Committed", f]
  }

  lemma JoinTwo(a: string, b: string)
    ensures Join([a, b], ';') == a + ";" + b
  {
    assert [a, b][1..] == [b];
  }

  lemma JoinThree(a: string, b: string, c: string)
    ensures Join([a, b, c], ';') == a + ";" + b + ";" + c
  {
    assert [a, b, c][1..] == [b, c];
    JoinTwo(b, c);
    assert a + [';'] + (b + ";" + c) == a + ";" + b + ";" + c;
  }

  lemma PrintIsJoin(r: ServerRecord)
    ensures Print(r) == Join(Fields(r), ';') || Print(r) == Join(Fields(r), ';') + [';']
  {
    match r
    case StartCommit(f, sources) =>
      JoinTwo("startCommit", f);
      LeadingJoin(["startCommit", f], PrintSources(sources));
      assert "startCommit;" + f == "startCommit" + ";" + f;
    case Decided(f, d, sources) =>
      JoinThree("Decision", f, if d then "true" else "false");
      assert "Decision;" + f + ";false" == "Decision" + ";" + f + ";" + "false";
      if d {
        LeadingJoin(["Decision", f, "true"], PrintSources(sources));
        TrailingLeading(PrintSources(sources));
        assert Print(r) == ("Decision" + ";" + f + ";" + "true") + (";" + Trailing(PrintSources(sources)));
        assert Print(r) == Join(["Decision", f, "true"], ';') + Leading(PrintSources(sources)) + [';'];
      }
    case Committed(f) =>
      JoinTwo("Committed", f);
      assert "Committed;" + f == "Committed" + ";" + f;
  }

  lemma FieldsFieldlike(r: ServerRecord)
    requires CleanRecord(r)
    ensures |Fields(r)| > 1 && forall t :: t in Fields(r) ==> Fieldlike(t)
  {
    assert Solid("startCommit") && Solid("Decision") && Solid("Committed") && Solid("true") && Solid("false");
    if r.StartCommit? || r.Decided? {
      SourcesRoundTrip(r.sources);
    }
  }

  lemma PrintedFields(r: ServerRecord)
    requires CleanRecord(r)
    ensures Split(Print(r), ';') == Fields(r)
  {
    FieldsFieldlike(r);
    PrintIsJoin(r);
    SplitJoin(Fields(r), ';');
    SplitJoinTrailing(Fields(r), ';');
  }

  lemma RecordRoundTrip(r: ServerRecord)
    requires CleanRecord(r)
    ensures Parse(Print(r)) == SL.Some(r)
  {
    PrintedFields(r);
    var fields := Fields(r);
    match r
    case StartCommit(f, sources) =>
      assert fields[2..] == PrintSources(sources);
      SourcesRoundTrip(sources);
    case Decided(f, d, sources) =>
      if d {
        assert fields[3..] == PrintSources(sources);
        SourcesRoundTrip(sources);
      } else {
        assert fields[3..] == [] && ParseSources([]) == [] && |"false"| != |"true"|;
      }
    case Committed(f) =>
  }

  // ----- the file -----

  function Flatten(lines: seq<string>): string {
    if lines == [] then "" else lines[0] + "\n" + Flatten(lines[1..])
  }

  function WordLength(s: string): (n: nat)
    ensures n <= |s|
  {
    if s == "" || Whitespace(s[0]) then 0 else 1 + WordLength(s[1..])
  }

  /** Scanner.next until hasNext fails: the maximal runs of non-space. */
  function Tokens(s: string): seq<string> {
    if s == "" then []
    else if Whitespace(s[0]) then Tokens(s[1..])
    else
      var n := WordLength(s);
      [s[..n]] + Tokens(s[n..])
  }

  lemma {:induction false} WordThenSpace(word: string, s: string)
    requires Solid(word) && s != "" && Whitespace(s[0])
    ensures WordLength(word + s) == |word|
  {
    if word == "" {
      assert word + s == s;
    } else {
      WordThenSpace(word[1..], s);
      assert (word + s)[1..] == word[1..] + s;
    }
  }

  lemma {:induction false} TokensAreLines(lines: seq<string>)
    requires forall l :: l in lines ==> l != "" && Solid(l)
    ensures Tokens(Flatten(lines)) == lines
  {
    if lines != [] {
      var rest := "\n" + Flatten(lines[1..]);
      var text := lines[0] + rest;
      assert Flatten(lines) == text;
      WordThenSpace(lines[0], rest);
      assert text[..|lines[0]|] == lines[0] && text[|lines[0]|..] == rest;
      assert rest[1..] == Flatten(lines[1..]);
      assert forall l :: l in lines[1..] ==> l in lines;
      TokensAreLines(lines[1..]);
    }
  }

  function PrintLog(log: seq<ServerRecord>): seq<string> {
    seq(|log|, i requires 0 <= i < |log| => Print(log[i]))
  }

  function ParseLines(lines: seq<string>): seq<ServerRecord> {
    if lines == [] then []
    else (match Parse(lines[0]) case Some(r) => [r] case None => []) + ParseLines(lines[1..])
  }

  lemma {:induction false} JoinSolid(fields: seq<string>)
    requires fields != [] && forall t :: t in fields ==> Solid(t)
    ensures Solid(Join(fields, ';'))
  {
    if |fields| > 1 {
      assert forall t :: t in fields[1..] ==> t in fields;
      JoinSolid(fields[1..]);
      assert !Whitespace(';') && Solid(fields[0]);
      assert forall c :: c in Join(fields, ';') ==> c in fields[0] || c == ';' || c in Join(fields[1..], ';');
    }
  }

  lemma PrintSolid(r: ServerRecord)
    requires CleanRecord(r)
    ensures Print(r) != "" && Solid(Print(r))
  {
    FieldsFieldlike(r);
    PrintIsJoin(r);
    JoinSolid(Fields(r));
  }

  lemma {:induction false} ParsePrintLog(log: seq<ServerRecord>)
    requires forall r :: r in log ==> CleanRecord(r)
    ensures ParseLines(PrintLog(log)) == log
  {
    if log != [] {
      RecordRoundTrip(log[0]);
      assert PrintLog(log)[1..] == PrintLog(log[1..]);
      ParsePrintLog(log[1..]);
    }
  }

  /** Writing a log to disk and reading it back gives the same records, so
      recovery from the text is recovery from the records. */
  lemma LogRoundTrip(log: seq<ServerRecord>)
    requires forall r :: r in log ==> CleanRecord(r)
    ensures ParseLines(Tokens(Flatten(PrintLog(log)))) == log
    ensures SL.Replay(ParseLines(Tokens(Flatten(PrintLog(log))))) == SL.Replay(log)
  {
    forall l | l in PrintLog(log) ensures l != "" && Solid(l) {
      var i :| 0 <= i < |log| && l == Print(log[i]);
      PrintSolid(log[i]);
    }
    TokensAreLines(PrintLog(log));
    ParsePrintLog(log);
  }

  // ----- the participant's log -----

  function PrintUser(r: UserRecord): string {
    match r
    case Voted(yes, f, images) => "Vote;" + (if yes then "yes;" else "no;") + f + Leading(images)
    case Resolved(token, f) => "Decision;" + token + ";" + f
  }

  /** The branches of UserNode.doFailure on one line. */
  function ParseUser(line: string): SL.Option<UserRecord> {
    var fields := Split(line, ';');
    if |fields| < 3 then SL.None
    else if fields[0] == "Vote" then SL.Some(Voted(fields[1] == "yes", fields[2], fields[3..]))
    else if fields[0] == "Decision" then SL.Some(Resolved(fields[1], fields[2]))
    else SL.None
  }

  /** The texts of each kind of record, with two sources or images. */
  lemma RecordTexts(f: string, s: Source, t: Source)
    ensures var sources := [s, t];
            && Print(StartCommit(f, sources))
               == "startCommit;" + f + (";" + PairText(s) + ";" + PairText(t))
            && Print(Decided(f, true, sources))
               == "Decision;" + f + ";true" + ";" + (PairText(s) + ";" + PairText(t) + ";")
    ensures Print(Decided(f, false, [])) == "Decision;" + f + ";false"
    ensures Print(Committed(f)) == "Committed;" + f
    ensures PrintUser(Voted(true, f, [s.image, t.image]))
         == "Vote;" + "yes;" + f + (";" + s.image + ";" + t.image)
    ensures PrintUser(Voted(false, f, [s.image])) == "Vote;" + "no;" + f + (";" + s.image)
    ensures PrintUser(Resolved("true", f)) == "Decision;" + "true" + ";" + f
  {
    TwoTexts(PairText(s), PairText(t));
    TwoTexts(s.image, t.image);
    OneText(s.image);
    assert PrintSources([s, t]) == [PairText(s), PairText(t)];
  }

  /** A source as it stands in the log. */
  function PairText(s: Source): string {
    s.user + [':'] + s.image
  }

  lemma OneText(a: string)
    ensures Leading([a]) == ";" + a && Trailing([a]) == a + ";"
  {
    assert [a][1..] == [];
  }

  lemma TwoTexts(a: string, b: string)
    ensures Leading([a, b]) == ";" + a + ";" + b && Trailing([a, b]) == a + ";" + b + ";"
  {
    OneText(b);
    assert [a, b][1..] == [b];
  }

  ghost predicate CleanUserRecord(r: UserRecord) {
    && Clean(r.fileName)
    && (r.Voted? ==> forall image :: image in r.images ==> Clean(image))
    && (r.Resolved? ==> Clean(r.token))
  }

  lemma UserRecordRoundTrip(r: UserRecord)
    requires CleanUserRecord(r)
    ensures ParseUser(PrintUser(r)) == SL.Some(r)
  {
    match r
    case Voted(yes, f, images) =>
      var answer := if yes then "yes" else "no";
      var head := ["Vote", answer, f];
      JoinThree("Vote", answer, f);
      assert "Vote;" + (if yes then "yes;" else "no;") + f == "Vote" + ";" + answer + ";" + f;
      LeadingJoin(head, images);
      assert forall t :: t in head + images ==> t in head || t in images;
      var last := (head + images)[|head + images| - 1];
      assert if images == [] then last == f else last == images[|images| - 1] && last in images;
      SplitJoin(head + images, ';');
      assert (head + images)[3..] == images && |"yes"| != |"no"|;
    case Resolved(token, f) =>
      JoinThree("Decision", token, f);
      assert "Decision;" + token + ";" + f == "Decision" + ";" + token + ";" + f;
      SplitJoin(["Decision", token, f], ';');
      assert |"Decision"| != |"Vote"|;
  }
}
