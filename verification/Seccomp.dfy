/** The seccomp policy: a parser for the global deny-list, an additive merge with the extra
    syscalls of a language, and a printer. Parsing undoes printing. */
module Seccomp {
  import opened Text

  datatype Policy = Policy(names: seq<string>, header: string, name: string, action: string)

  datatype Error =
    | MissingPolicy | MalformedPolicy | MissingDeny | DenyNotClosed | MissingUse
    | UnknownSyscall(name: string)

  datatype Result<T> = Ok(value: T) | Err(error: Error)

  const POLICY_KW: string := "POLICY "
  const DENY_KW: string := "DENY {"
  const NAME_END: set<char> := {' ', '\t', '{'}

  // ---------------------------------------------------------------- the parser

  function StripComment(line: string): string {
    var i := Index(line, "//");
    if i >= 0 then line[..i] else line
  }

  function StripComments(lines: seq<string>): (r: seq<string>)
    ensures |r| == |lines| && forall i | 0 <= i < |r| :: r[i] == StripComment(lines[i])
  {
    if lines == [] then [] else [StripComment(lines[0])] + StripComments(lines[1..])
  }

  /** The trimmed parts that are not empty. */
  function Entries(parts: seq<string>): seq<string> {
    if parts == [] then [] else EntryOf(parts[0]) + Entries(parts[1..])
  }

  function EntryOf(part: string): seq<string> {
    var n := TrimSpace(part);
    if n != "" then [n] else []
  }

  function ParseBody(body: string): seq<string> {
    Entries(Split(Join(StripComments(Split(body, '\n')), '\n'), ','))
  }

  function UsePattern(name: string): string { "USE " + name + " DEFAULT " }

  function TrimFrom(s: string, m: nat): string
    requires m <= |s|
  {
    TrimSpace(s[m..])
  }

  /** The trimmed text after the last occurrence of pat, or nothing. */
  function AfterLast(s: string, pat: string): string {
    var i := LastIndex(s, pat);
    if i >= 0 then TrimFrom(s, i + |pat|) else ""
  }

  function ParseAction(s: string, name: string): string { AfterLast(s, UsePattern(name)) }

  /** The deny block of s, which is looked for from the POLICY keyword on. */
  function DenyBody(s: string, polIdx: nat): Result<string>
    requires polIdx <= |s|
  {
    var blockIdx := Index(s[polIdx..], DENY_KW);
    if blockIdx < 0 then Err(MissingDeny)
    else
      var afterDeny := s[polIdx + blockIdx + |DENY_KW|..];
      var bodyEnd := Index(afterDeny, "}");
      if bodyEnd < 0 then Err(DenyNotClosed) else Ok(afterDeny[..bodyEnd])
  }

  function PolicyName(afterPol: string): Result<string> {
    var nameEnd := IndexAny(afterPol, NAME_END);
    if nameEnd < 0 then Err(MalformedPolicy) else Ok(TrimSpace(afterPol[..nameEnd]))
  }

  /** What follows once the name is known. */
  function ParseRest(s: string, polIdx: nat, name: string): Result<Policy>
    requires polIdx <= |s|
  {
    var body := DenyBody(s, polIdx);
    if body.Err? then Err(body.error)
    else
      var action := ParseAction(s, name);
      if action == "" then Err(MissingUse) else Ok(Policy(ParseBody(body.value), s[..polIdx], name, action))
  }

  /** Where the policy starts and what it is called. */
  function Locate(s: string): (r: Result<(nat, string)>)
    ensures r.Ok? ==> r.value.0 <= |s|
  {
    var polIdx := Index(s, POLICY_KW);
    if polIdx < 0 then Err(MissingPolicy)
    else
      var name := PolicyName(s[polIdx + |POLICY_KW|..]);
      if name.Err? then Err(name.error) else Ok((polIdx, name.value))
  }

  function Parse(s: string): Result<Policy> {
    var start := Locate(s);
    if start.Err? then Err(start.error) else ParseRest(s, start.value.0, start.value.1)
  }

  // ---------------------------------------------------------------- the printer

  /** The lines of names[i..]. */
  function PrintNames(names: seq<string>, i: nat): string
    requires i <= |names|
    decreases |names| - i
  {
    if i == |names| then ""
    else "\t\t" + names[i] + (if i < |names| - 1 then "," else "") + "\n" + PrintNames(names, i + 1)
  }

  /** From the POLICY keyword to the brace that opens the deny block. */
  function OpeningLine(name: string): string { POLICY_KW + name + " {\n\t" + DENY_KW }

  /** From the end of the brace that closes the deny block. */
  function Closing(p: Policy): string { "\n}\n\n" + (UsePattern(p.name) + (p.action + "\n")) }

  function PrintHead(p: Policy): string { p.header + OpeningLine(p.name) + "\n" }

  function Print(p: Policy): string { PrintHead(p) + PrintNames(p.names, 0) + ("\t}" + Closing(p)) }

  // ---------------------------------------------------------------- well-formed policies

  ghost predicate NoComment(s: string) { forall i | 0 <= i < |s| - 1 :: !(s[i] == '/' && s[i + 1] == '/') }

  /** An entry the printer can write and the parser can read back. */
  ghost predicate EntryOk(n: string) {
    n != "" && Trimmed(n) && ',' !in n && '}' !in n && NoComment(n)
  }

  ghost predicate NameOk(name: string) { Trimmed(name) && forall c | c in NAME_END :: c !in name }

  /** The header runs up to the first POLICY keyword. */
  ghost predicate HeaderOk(header: string) { forall i | i < |header| :: !At(header + POLICY_KW, POLICY_KW, i) }

  ghost predicate Absent(t: string, p: string) { forall i :: !At(t, p, i) }

  ghost predicate ActionOk(name: string, action: string) {
    action != "" && Trimmed(action) && Absent(action, UsePattern(name))
  }

  ghost predicate PolicyOk(p: Policy) {
    && HeaderOk(p.header) && NameOk(p.name) && ActionOk(p.name, p.action)
    && forall i | 0 <= i < |p.names| :: EntryOk(p.names[i])
  }

  predicate EndsInDeny(name: string) { |name| >= 4 && name[|name| - 4..] == "DENY" }

  // ---------------------------------------------------------------- what the parser returns

  lemma NoCommentIndex(s: string)
    ensures NoComment(s) <==> forall i :: !At(s, "//", i)
  {
    if NoComment(s) {
      forall i ensures !At(s, "//", i) {
        if At(s, "//", i) {
          AtChar(s, "//", i, 0);
          AtChar(s, "//", i, 1);
        }
      }
    }
    if i :| 0 <= i < |s| - 1 && s[i] == '/' && s[i + 1] == '/' {
      assert s[i..i + 2] == "//";
      assert At(s, "//", i);
    }
  }

  lemma StripCommentOk(line: string, c: char)
    ensures NoComment(StripComment(line))
    ensures c !in line ==> c !in StripComment(line)
  {
    var i := Index(line, "//");
    NoCommentIndex(StripComment(line));
    if i >= 0 {
      forall j ensures !At(line[..i], "//", j) {
        if At(line[..i], "//", j) { AtSlice(line, "//", 0, i, j); }
      }
    } else {
      NoCommentIndex(line);
    }
  }

  lemma NoCommentConcat(a: string, b: string)
    requires NoComment(a) && NoComment(b)
    requires a == "" || b == "" || !(a[|a| - 1] == '/' && b[0] == '/')
    ensures NoComment(a + b)
  {}

  /** Joining comment-free lines makes comment-free text. */
  lemma {:induction false} JoinOk(lines: seq<string>, c: char)
    requires c != '\n'
    requires forall i | 0 <= i < |lines| :: NoComment(lines[i]) && c !in lines[i]
    ensures NoComment(Join(lines, '\n')) && c !in Join(lines, '\n')
    decreases |lines|
  {
    if |lines| > 1 {
      JoinOk(lines[1..], c);
      NoCommentConcat(lines[0], ['\n']);
      NoCommentConcat(lines[0] + ['\n'], Join(lines[1..], '\n'));
    }
  }

  lemma SplitOk(s: string, c: char, d: char)
    requires NoComment(s) && d !in s
    ensures forall k | 0 <= k < |Split(s, c)| :: NoComment(Split(s, c)[k]) && d !in Split(s, c)[k]
  {
    PartsArePieces(s, c);
    forall k | 0 <= k < |Split(s, c)| ensures NoComment(Split(s, c)[k]) && d !in Split(s, c)[k] {
      assert Piece(Split(s, c)[k], s);
      var lo, hi :| 0 <= lo <= hi <= |s| && Split(s, c)[k] == s[lo..hi];
    }
  }

  lemma TrimEntryOk(part: string)
    requires NoComment(part) && ',' !in part && '}' !in part && TrimSpace(part) != ""
    ensures EntryOk(TrimSpace(part))
  {
    var lo, hi := TrimIsSlice(part);
  }

  lemma {:induction false} EntriesOk(parts: seq<string>)
    requires forall i | 0 <= i < |parts| :: NoComment(parts[i]) && ',' !in parts[i] && '}' !in parts[i]
    ensures forall i | 0 <= i < |Entries(parts)| :: EntryOk(Entries(parts)[i])
    decreases |parts|
  {
    if parts != [] {
      EntriesOk(parts[1..]);
      if TrimSpace(parts[0]) != "" { TrimEntryOk(parts[0]); }
    }
  }

  lemma ParseBodyOk(body: string)
    requires '}' !in body
    ensures forall i | 0 <= i < |ParseBody(body)| :: EntryOk(ParseBody(body)[i])
  {
    var lines := StripComments(Split(body, '\n'));
    PartsArePieces(body, '\n');
    forall i | 0 <= i < |lines| ensures NoComment(lines[i]) && '}' !in lines[i] {
      assert Piece(Split(body, '\n')[i], body);
      var lo, hi :| 0 <= lo <= hi <= |body| && Split(body, '\n')[i] == body[lo..hi];
      StripCommentOk(Split(body, '\n')[i], '}');
    }
    JoinOk(lines, '}');
    SplitOk(Join(lines, '\n'), ',', '}');
    PartsClean(Join(lines, '\n'), ',');
    EntriesOk(Split(Join(lines, '\n'), ','));
  }

  lemma TrimTailIsSlice(s: string, m: nat) returns (lo: nat, hi: nat)
    requires m <= |s|
    ensures m <= lo <= hi <= |s| && TrimFrom(s, m) == s[lo..hi] && Trimmed(s[lo..hi])
  {
    var rest := s[m..];
    lo, hi := TrimIsSlice(rest);
    assert rest[lo..hi] == s[m + lo..m + hi];
    lo, hi := m + lo, m + hi;
  }

  /** After its last occurrence the pattern does not occur again. */
  lemma NoneAfterLast(s: string, pat: string, lo: nat, hi: nat)
    requires pat != "" && lo <= hi <= |s| && LastIndex(s, pat) < lo
    ensures Absent(s[lo..hi], pat)
  {
    var t := s[lo..hi];
    forall k ensures !At(t, pat, k) {
      if At(t, pat, k) { AtSlice(s, pat, lo, hi, k); }
    }
  }

  lemma AfterLastIsSlice(s: string, pat: string) returns (lo: nat, hi: nat)
    requires AfterLast(s, pat) != ""
    ensures LastIndex(s, pat) + |pat| <= lo <= hi <= |s| && AfterLast(s, pat) == s[lo..hi] && Trimmed(s[lo..hi])
  {
    lo, hi := TrimTailIsSlice(s, LastIndex(s, pat) + |pat|);
  }

  lemma AfterLastOk(s: string, pat: string)
    requires pat != "" && AfterLast(s, pat) != ""
    ensures Trimmed(AfterLast(s, pat)) && Absent(AfterLast(s, pat), pat)
  {
    var lo, hi := AfterLastIsSlice(s, pat);
    NoneAfterLast(s, pat, lo, hi);
  }

  lemma ParsedActionOk(s: string, name: string)
    requires ParseAction(s, name) != ""
    ensures ActionOk(name, ParseAction(s, name))
  {
    AfterLastOk(s, UsePattern(name));
  }

  lemma ParsedNameOk(afterPol: string)
    requires PolicyName(afterPol).Ok?
    ensures NameOk(PolicyName(afterPol).value)
  {
    var lo, hi := TrimIsSlice(afterPol[..IndexAny(afterPol, NAME_END)]);
  }

  lemma ParsedHeaderOk(s: string, k: nat)
    requires At(s, POLICY_KW, k) && forall i | i < k :: !At(s, POLICY_KW, i)
    ensures HeaderOk(s[..k])
  {
    var h := s[..k + |POLICY_KW|];
    assert s[..k] + POLICY_KW == h;
    forall i | i < k ensures !At(h, POLICY_KW, i) {
      if 0 <= i { AtSlice(s, POLICY_KW, 0, k + |POLICY_KW|, i); }
    }
  }

  lemma NoBrace(s: string, k: nat)
    requires k <= |s| && forall i | i < k :: !At(s, "}", i)
    ensures '}' !in s[..k]
  {
    forall i | 0 <= i < k ensures s[i] != '}' {
      if s[i] == '}' { assert s[i..i + 1] == "}"; assert At(s, "}", i); }
    }
  }

  lemma ParsedBodyOk(s: string, polIdx: nat)
    requires polIdx <= |s| && DenyBody(s, polIdx).Ok?
    ensures '}' !in DenyBody(s, polIdx).value
  {
    var afterDeny := s[polIdx + Index(s[polIdx..], DENY_KW) + |DENY_KW|..];
    NoBrace(afterDeny, Index(afterDeny, "}"));
  }

  /** Whatever the parser accepts is a policy the printer can write. */
  lemma {:induction false} ParseGivesPolicyOk(s: string)
    ensures Parse(s).Ok? ==> PolicyOk(Parse(s).value)
  {
    if Parse(s).Ok? {
      var polIdx := Index(s, POLICY_KW);
      ParsedHeaderOk(s, polIdx);
      ParsedNameOk(s[polIdx + |POLICY_KW|..]);
      ParsedActionOk(s, Parse(s).value.name);
      ParsedBodyOk(s, polIdx);
      ParseBodyOk(DenyBody(s, polIdx).value);
    }
  }

  // ---------------------------------------------------------------- reading back the entries

  /** The printed deny block from names[i] on, as the parser cuts it out. */
  function Block(names: seq<string>, i: nat): string
    requires i <= |names|
    decreases |names| - i
  {
    if i == |names| then "\n\t"
    else if i == |names| - 1 then "\n\t\t" + names[i] + "\n\t"
    else "\n\t\t" + names[i] + [','] + Block(names, i + 1)
  }

  lemma LastLine(n: string)
    ensures "\n" + ("\t\t" + n + "" + "\n" + "") + "\t" == "\n\t\t" + n + "\n\t"
  {}

  lemma MiddleLine(n: string, rest: string)
    ensures "\n" + ("\t\t" + n + "," + "\n" + rest) + "\t" == "\n\t\t" + n + [','] + ("\n" + rest + "\t")
  {}

  lemma {:induction false} BlockIsPrinted(names: seq<string>, i: nat)
    requires i <= |names|
    ensures "\n" + PrintNames(names, i) + "\t" == Block(names, i)
    decreases |names| - i
  {
    if i == |names| - 1 {
      assert PrintNames(names, i + 1) == "";
      LastLine(names[i]);
    } else if i < |names| {
      BlockIsPrinted(names, i + 1);
      MiddleLine(names[i], PrintNames(names, i + 1));
    }
  }

  ghost predicate EntriesAllOk(names: seq<string>) { forall i | 0 <= i < |names| :: EntryOk(names[i]) }

  lemma {:induction false} BlockClean(names: seq<string>, i: nat)
    requires EntriesAllOk(names) && i <= |names|
    ensures NoComment(Block(names, i)) && '}' !in Block(names, i)
    decreases |names| - i
  {
    if i < |names| {
      NoCommentConcat("\n\t\t", names[i]);
      if i == |names| - 1 {
        NoCommentConcat("\n\t\t" + names[i], "\n\t");
      } else {
        BlockClean(names, i + 1);
        NoCommentConcat("\n\t\t" + names[i], [',']);
        NoCommentConcat("\n\t\t" + names[i] + [','], Block(names, i + 1));
      }
    }
  }

  lemma EntryOfLast(n: string)
    requires EntryOk(n)
    ensures Entries(Split("\n\t\t" + n + "\n\t", ',')) == [n]
  {
    var part := "\n\t\t" + n + "\n\t";
    SplitNone(part, ',');
    TrimPadded("\n\t\t", n, "\n\t");
    assert [part][1..] == [];
  }

  lemma EntryThenRest(n: string, rest: string)
    requires EntryOk(n)
    ensures Entries(Split("\n\t\t" + n + [','] + rest, ',')) == [n] + Entries(Split(rest, ','))
  {
    var part := "\n\t\t" + n;
    SplitFirst(part, ',', rest);
    TrimPadded("\n\t\t", n, "");
    assert part + "" == part;
    var parts := [part] + Split(rest, ',');
    assert parts[0] == part && parts[1..] == Split(rest, ',');
  }

  /** Splitting the block at commas and trimming gives the entries back. */
  lemma {:induction false} EntriesOfBlock(names: seq<string>, i: nat)
    requires EntriesAllOk(names) && i <= |names|
    ensures Entries(Split(Block(names, i), ',')) == names[i..]
    decreases |names| - i
  {
    if i == |names| {
      EntriesOfNothing();
    } else if i == |names| - 1 {
      EntryOfLast(names[i]);
    } else {
      EntryThenRest(names[i], Block(names, i + 1));
      EntriesOfBlock(names, i + 1);
      TailFrom(names, i);
    }
  }

  lemma TailFrom(names: seq<string>, i: nat)
    requires i < |names|
    ensures names[i..] == [names[i]] + names[i + 1..]
  {}

  lemma EntriesOfNothing()
    ensures Entries(Split("\n\t", ',')) == []
  {
    SplitNone("\n\t", ',');
    TrimBlank("\n\t");
  }

  lemma StripNothing(lines: seq<string>)
    requires forall i | 0 <= i < |lines| :: NoComment(lines[i])
    ensures StripComments(lines) == lines
  {
    forall i | 0 <= i < |lines| ensures StripComment(lines[i]) == lines[i] { NoCommentIndex(lines[i]); }
  }

  /** On comment-free text the comment pass is the identity. */
  lemma ParseBodyClean(body: string)
    requires NoComment(body)
    ensures ParseBody(body) == Entries(Split(body, ','))
  {
    PartsArePieces(body, '\n');
    forall k | 0 <= k < |Split(body, '\n')| ensures NoComment(Split(body, '\n')[k]) {
      assert Piece(Split(body, '\n')[k], body);
      var lo, hi :| 0 <= lo <= hi <= |body| && Split(body, '\n')[k] == body[lo..hi];
    }
    StripNothing(Split(body, '\n'));
    JoinSplit(body, '\n');
  }

  // ---------------------------------------------------------------- reading back the keywords

  /** Nothing after the header start looks like the POLICY keyword earlier than the real one. */
  lemma PolicyFound(header: string, rest: string)
    requires HeaderOk(header)
    ensures Index(header + POLICY_KW + rest, POLICY_KW) == |header|
  {
    var h := header + POLICY_KW;
    var s := h + rest;
    assert s[..|h|] == h;
    assert s[|header|..|h|] == POLICY_KW;
    forall i | i < |header| ensures !At(s, POLICY_KW, i) {
      if 0 <= i { AtSlice(s, POLICY_KW, 0, |h|, i); }
    }
    IndexUnique(s, POLICY_KW, |header|);
  }

  lemma NameFound(name: string, rest: string)
    requires NameOk(name) && rest != "" && rest[0] == ' '
    ensures PolicyName(name + rest) == Ok(name)
  {
    var s := name + rest;
    assert s[|name|] == ' ';
    assert forall i | 0 <= i < |name| :: s[i] == name[i];
    assert IndexAny(s, NAME_END) == |name|;
    assert s[..|name|] == name;
    TrimTrimmed(name);
  }

  function Opening(name: string, rest: string): string { OpeningLine(name) + rest }

  lemma OpeningChars(name: string, rest: string)
    ensures var s, n := Opening(name, rest), |name|;
      && |s| == n + 17 + |rest|
      && (forall j | 0 <= j < 7 :: s[j] == POLICY_KW[j])
      && (forall j | 0 <= j < n :: s[7 + j] == name[j])
      && s[7 + n] == ' ' && s[8 + n] == '{' && s[9 + n] == '\n' && s[10 + n] == '\t'
      && (forall j | 0 <= j < 6 :: s[11 + n + j] == DENY_KW[j])
      && s[17 + n..] == rest
  {}

  /** The only brace before the one that opens the deny block comes right after the name. */
  lemma FirstBrace(name: string, rest: string, k: nat)
    requires NameOk(name) && k < |name| + 16 && Opening(name, rest)[k] == '{'
    ensures k == |name| + 8
  {
    OpeningChars(name, rest);
  }

  lemma EndsInDenyChars(name: string, n: nat)
    requires n == |name| >= 4 && name[n - 4] == 'D' && name[n - 3] == 'E' && name[n - 2] == 'N' && name[n - 1] == 'Y'
    ensures EndsInDeny(name)
  {
    assert name[n - 4..] == [name[n - 4], name[n - 3], name[n - 2], name[n - 1]];
  }

  /** Before the real one, the DENY keyword can only be seen at the end of the policy's name. */
  lemma DenyOccurrence(name: string, rest: string, i: int)
    requires NameOk(name) && i < |name| + 11 && At(Opening(name, rest), DENY_KW, i)
    ensures i == |name| + 3 && EndsInDeny(name)
  {
    var s, n := Opening(name, rest), |name|;
    AtChar(s, DENY_KW, i, 5);
    FirstBrace(name, rest, i + 5);
    AtChar(s, DENY_KW, i, 0);
    AtChar(s, DENY_KW, i, 1);
    AtChar(s, DENY_KW, i, 2);
    AtChar(s, DENY_KW, i, 3);
    OpeningChars(name, rest);
    EndsInDenyChars(name, n);
  }

  lemma DenyFound(name: string, rest: string)
    requires NameOk(name) && !EndsInDeny(name)
    ensures Index(Opening(name, rest), DENY_KW) == |name| + 11
  {
    var s, n := Opening(name, rest), |name|;
    OpeningChars(name, rest);
    assert s[11 + n..17 + n] == DENY_KW;
    forall i | i < n + 11 ensures !At(s, DENY_KW, i) {
      if At(s, DENY_KW, i) { DenyOccurrence(name, rest, i); }
    }
    IndexUnique(s, DENY_KW, n + 11);
  }

  lemma DenyFoundInName(name: string, rest: string)
    requires NameOk(name) && EndsInDeny(name)
    ensures Index(Opening(name, rest), DENY_KW) == |name| + 3
  {
    var s, n := Opening(name, rest), |name|;
    OpeningChars(name, rest);
    var d := name[n - 4..];
    assert d[0] == name[n - 4] && d[1] == name[n - 3] && d[2] == name[n - 2] && d[3] == name[n - 1];
    assert s[n + 3] == name[n - 4] && s[n + 4] == name[n - 3] && s[n + 5] == name[n - 2] && s[n + 6] == name[n - 1];
    assert s[n + 3..n + 9] == DENY_KW;
    forall i | i < n + 3 ensures !At(s, DENY_KW, i) {
      if At(s, DENY_KW, i) { DenyOccurrence(name, rest, i); }
    }
    IndexUnique(s, DENY_KW, n + 3);
  }

  // ---------------------------------------------------------------- reading back the action

  lemma UseChars(name: string)
    ensures var p, n := UsePattern(name), |name|;
      && |p| == n + 13
      && p[0] == 'U' && p[1] == 'S' && p[2] == 'E' && p[3] == ' '
      && (forall j | 0 <= j < n :: p[4 + j] == name[j])
      && p[4 + n] == ' '
      && (forall j | 0 <= j < 7 :: p[5 + n + j] == "DEFAULT"[j])
      && p[12 + n] == ' '
  {}

  ghost predicate StartsWith(t: string, p: string) { |t| >= |p| && forall j | 0 <= j < |p| :: t[j] == p[j] }

  lemma OverlapAtName(name: string, t: string)
    requires NameOk(name) && StartsWith(t, UsePattern(name))
    ensures !At(t, UsePattern(name), |name| + 1)
  {
    var p, n := UsePattern(name), |name|;
    UseChars(name);
    if n < 3 {
      NotAt(t, p, n + 1, 2 - n);
    } else if n <= 6 {
      assert t[5 + n + n] == "DEFAULT"[n];
      NotAt(t, p, n + 1, 4 + n);
    } else if n == 7 {
      NotAt(t, p, n + 1, if name[6] == 'E' then 10 else 2);
    } else {
      NotAt(t, p, n + 1, 11);
    }
  }

  lemma OverlapElsewhere(name: string, t: string, k: int)
    requires NameOk(name) && 1 <= k < |UsePattern(name)| && k != |name| + 1
    requires StartsWith(t, UsePattern(name)) && k + 3 < |t|
    ensures t[k] != 'U' || t[k + 1] != 'S' || t[k + 2] != 'E' || t[k + 3] != ' '
  {
    UseChars(name);
  }

  lemma UseStart(name: string)
    ensures var p := UsePattern(name); |p| >= 13 && p[0] == 'U' && p[1] == 'S' && p[2] == 'E' && p[3] == ' '
  {}

  lemma NotAtStart(t: string, p: string, k: nat)
    requires |p| >= 4 && k + 4 <= |t|
    requires t[k] != p[0] || t[k + 1] != p[1] || t[k + 2] != p[2] || t[k + 3] != p[3]
    ensures !At(t, p, k)
  {
    NotAt(t, p, k, if t[k] != p[0] then 0 else if t[k + 1] != p[1] then 1 else if t[k + 2] != p[2] then 2 else 3);
  }

  /** The USE pattern cannot overlap itself. */
  lemma UseOverlap(name: string, t: string, k: int)
    requires NameOk(name) && StartsWith(t, UsePattern(name)) && 1 <= k < |UsePattern(name)|
    ensures !At(t, UsePattern(name), k)
  {
    var p := UsePattern(name);
    UseStart(name);
    if k == |name| + 1 {
      OverlapAtName(name, t);
    } else if k + |p| <= |t| {
      OverlapElsewhere(name, t, k);
      NotAtStart(t, p, k);
    }
  }

  /** In the printed tail the pattern occurs once, at the start. */
  lemma UseOnce(name: string, action: string, k: int)
    requires NameOk(name) && ActionOk(name, action) && k >= 1
    ensures !At(UsePattern(name) + (action + "\n"), UsePattern(name), k)
  {
    var p := UsePattern(name);
    var t := p + (action + "\n");
    UseChars(name);
    if k < |p| {
      UseOverlap(name, t, k);
    } else {
      UsePast(p, action, k);
    }
  }

  /** Past its first occurrence a pattern that ends in a blank could only occur in the action. */
  lemma UsePast(p: string, action: string, k: int)
    requires p != "" && p[|p| - 1] == ' ' && Absent(action, p) && k >= |p|
    ensures !At(p + (action + "\n"), p, k)
  {
    var t := p + (action + "\n");
    if k + |p| == |t| {
      NotAt(t, p, k, |p| - 1);
    } else if k + |p| < |t| {
      assert t[|p|..|p| + |action|] == action;
      AtSlice(t, p, |p|, |p| + |action|, k - |p|);
    }
  }

  /** A pattern that starts the tail and does not recur in it is found there. */
  lemma LastInTail(pre: string, p: string, rest: string)
    requires p != "" && OnlyAtStart(p + rest, p)
    ensures LastIndex(pre + (p + rest), p) == |pre|
    ensures (pre + (p + rest))[|pre| + |p|..] == rest
  {
    var t := p + rest;
    var s := pre + t;
    assert s[|pre|..|pre| + |p|] == p;
    forall i | |pre| < i ensures !At(s, p, i) {
      assert s[|pre|..|s|] == t;
      if i + |p| <= |s| { AtSlice(s, p, |pre|, |s|, i - |pre|); }
    }
    LastIndexUnique(s, p, |pre|);
  }

  lemma TrimNewline(n: string)
    requires n != "" && Trimmed(n)
    ensures TrimSpace(n + "\n") == n
  {
    assert "" + n + "\n" == n + "\n";
    TrimPadded("", n, "\n");
  }

  ghost predicate OnlyAtStart(t: string, p: string) { forall k | k >= 1 :: !At(t, p, k) }

  lemma UseOnlyAtStart(name: string, action: string)
    requires NameOk(name) && ActionOk(name, action)
    ensures OnlyAtStart(UsePattern(name) + (action + "\n"), UsePattern(name))
  {
    forall k | k >= 1 ensures !At(UsePattern(name) + (action + "\n"), UsePattern(name), k) { UseOnce(name, action, k); }
  }

  lemma ActionTail(pre: string, p: string, action: string)
    requires p != "" && action != "" && Trimmed(action)
    requires OnlyAtStart(p + (action + "\n"), p)
    ensures AfterLast(pre + (p + (action + "\n")), p) == action
  {
    LastInTail(pre, p, action + "\n");
    AfterLastAt(pre + (p + (action + "\n")), p, |pre|, action + "\n");
    TrimNewline(action);
  }

  lemma TrimFromIs(s: string, m: nat, rest: string)
    requires m <= |s| && s[m..] == rest
    ensures TrimFrom(s, m) == TrimSpace(rest)
  {}

  lemma AfterLastAt(s: string, p: string, i: nat, rest: string)
    requires LastIndex(s, p) == i && s[i + |p|..] == rest
    ensures AfterLast(s, p) == TrimSpace(rest)
  {
    TrimFromIs(s, i + |p|, rest);
  }

  lemma ActionFound(pre: string, name: string, action: string)
    requires NameOk(name) && ActionOk(name, action)
    ensures ParseAction(pre + (UsePattern(name) + (action + "\n")), name) == action
  {
    UseOnlyAtStart(name, action);
    ActionTail(pre, UsePattern(name), action);
  }

  // ---------------------------------------------------------------- the round trip

  lemma BodyFound(prefix: string, rest: string)
    requires '}' !in prefix
    ensures Index(prefix + ("}" + rest), "}") == |prefix|
  {
    var s := prefix + ("}" + rest);
    assert s[|prefix|..|prefix| + 1] == "}";
    forall i | i < |prefix| ensures !At(s, "}", i) {
      if 0 <= i { NotAt(s, "}", i, 0); }
    }
    IndexUnique(s, "}", |prefix|);
  }

  lemma Assoc(a: string, b: string, c: string)
    ensures (a + b) + c == a + (b + c)
  {}

  lemma DropAppend(a: string, b: string, k: nat)
    requires k <= |a|
    ensures (a + b)[k..] == a[k..] + b
  {}

  lemma Regroup(a: string, n: string, c: string)
    ensures a + "\n" + n + ("\t}" + c) == a + (("\n" + n + "\t") + ("}" + c))
  {}

  /** The printed text, cut where the parser cuts it. */
  lemma PrintShape(p: Policy)
    ensures Print(p) == p.header + Opening(p.name, Block(p.names, 0) + ("}" + Closing(p)))
  {
    BlockIsPrinted(p.names, 0);
    Regroup(p.header + OpeningLine(p.name), PrintNames(p.names, 0), Closing(p));
    Assoc(p.header, OpeningLine(p.name), Block(p.names, 0) + ("}" + Closing(p)));
  }

  lemma PrintTailShape(p: Policy) returns (pre: string)
    ensures Print(p) == pre + (UsePattern(p.name) + (p.action + "\n"))
  {
    var a, use := PrintHead(p) + PrintNames(p.names, 0), UsePattern(p.name) + (p.action + "\n");
    pre := a + ("\t}" + "\n}\n\n");
    Assoc("\t}", "\n}\n\n", use);
    Assoc(a, "\t}" + "\n}\n\n", use);
  }

  lemma HeaderRead(header: string, name: string, rest: string)
    requires HeaderOk(header) && NameOk(name)
    ensures var s := header + Opening(name, rest);
      && Index(s, POLICY_KW) == |header| && s[..|header|] == header && s[|header|..] == Opening(name, rest)
      && PolicyName(s[|header| + |POLICY_KW|..]) == Ok(name)
  {
    var s := header + Opening(name, rest);
    var more := " {\n\t" + DENY_KW + rest;
    assert Opening(name, rest) == POLICY_KW + (name + more);
    Assoc(header, POLICY_KW, name + more);
    PolicyFound(header, name + more);
    assert s[|header| + |POLICY_KW|..] == name + more;
    NameFound(name, more);
  }

  /** The deny block of text whose DENY keyword ends at position k of the opening. */
  lemma BodyAt(header: string, open: string, k: nat, body: string, tail: string)
    requires |DENY_KW| <= k <= |open| && '}' !in body
    requires Index(open, DENY_KW) == k - |DENY_KW| && open[k..] == body + ("}" + tail)
    ensures DenyBody(header + open, |header|) == Ok(body)
  {
    var s := header + open;
    assert s[|header|..] == open;
    assert s[|header| + k..] == open[k..];
    BodyFound(body, tail);
    assert (body + ("}" + tail))[..|body|] == body;
  }

  lemma DenyRead(header: string, name: string, block: string, tail: string)
    requires NameOk(name) && !EndsInDeny(name) && '}' !in block
    ensures DenyBody(header + Opening(name, block + ("}" + tail)), |header|) == Ok(block)
  {
    var rest := block + ("}" + tail);
    DenyFound(name, rest);
    OpeningChars(name, rest);
    BodyAt(header, Opening(name, rest), 17 + |name|, block, tail);
  }

  lemma OpeningRest(name: string)
    ensures |OpeningLine(name)| == |name| + 17 && OpeningLine(name)[|name| + 9..] == "\n\tDENY {"
  {
    var line := OpeningLine(name);
    assert forall j | 0 <= j < 8 :: line[|name| + 9 + j] == "\n\tDENY {"[j];
  }

  /** With a name that ends in DENY the parser takes the rest of the opening for deny entries. */
  lemma DenyReadInName(header: string, name: string, block: string, tail: string)
    requires NameOk(name) && EndsInDeny(name) && '}' !in block
    ensures DenyBody(header + Opening(name, block + ("}" + tail)), |header|) == Ok("\n\tDENY {" + block)
  {
    var rest := block + ("}" + tail);
    DenyFoundInName(name, rest);
    OpeningRest(name);
    DropAppend(OpeningLine(name), rest, |name| + 9);
    Assoc("\n\tDENY {", block, "}" + tail);
    BodyAt(header, Opening(name, rest), |name| + 9, "\n\tDENY {" + block, tail);
  }

  lemma BlockRead(names: seq<string>)
    requires EntriesAllOk(names)
    ensures ParseBody(Block(names, 0)) == names && '}' !in Block(names, 0)
  {
    BlockClean(names, 0);
    ParseBodyClean(Block(names, 0));
    EntriesOfBlock(names, 0);
  }

  /** A policy text with any deny block. */
  function WithBody(p: Policy, body: string): string { p.header + Opening(p.name, body + ("}" + Closing(p))) }

  lemma WithBodyTail(p: Policy, body: string) returns (pre: string)
    ensures WithBody(p, body) == pre + (UsePattern(p.name) + (p.action + "\n"))
  {
    var open, use := OpeningLine(p.name), UsePattern(p.name) + (p.action + "\n");
    pre := p.header + (open + (body + ("}" + "\n}\n\n")));
    Assoc("}", "\n}\n\n", use);
    Assoc(body, "}" + "\n}\n\n", use);
    Assoc(open, body + ("}" + "\n}\n\n"), use);
    Assoc(p.header, open + (body + ("}" + "\n}\n\n")), use);
  }

  /** Whatever stands in the deny block, the parser finds it, and reads header, name and action. */
  lemma BodyIsRead(p: Policy, body: string)
    requires HeaderOk(p.header) && NameOk(p.name) && ActionOk(p.name, p.action) && !EndsInDeny(p.name) && '}' !in body
    ensures Parse(WithBody(p, body)) == Ok(p.(names := ParseBody(body)))
  {
    HeaderRead(p.header, p.name, body + ("}" + Closing(p)));
    DenyRead(p.header, p.name, body, Closing(p));
    var pre := WithBodyTail(p, body);
    ActionFound(pre, p.name, p.action);
  }

  /** Parsing a printed policy gives the policy back. */
  lemma RoundTrip(p: Policy)
    requires PolicyOk(p) && !EndsInDeny(p.name)
    ensures Parse(Print(p)) == Ok(p)
  {
    PrintShape(p);
    BlockRead(p.names);
    BodyIsRead(p, Block(p.names, 0));
  }

  // ---------------------------------------------------------------- what is printed

  /** The fixed text around the entries. */
  lemma PrintFrame(p: Policy)
    ensures Print(p) == p.header + ("POLICY " + p.name + " {\n\t" + "DENY {") + "\n" + PrintNames(p.names, 0)
      + ("\t}" + ("\n}\n\n" + (("USE " + p.name + " DEFAULT ") + (p.action + "\n"))))
  {}

  ghost predicate PartsAre(parts: seq<string>, names: seq<string>) {
    |parts| == |names| && forall k | 0 <= k < |names| :: TrimSpace(parts[k]) == names[k]
  }

  lemma PartsCons(part: string, parts: seq<string>, n: string, names: seq<string>)
    requires TrimSpace(part) == n && PartsAre(parts, names)
    ensures PartsAre([part] + parts, [n] + names)
  {}

  lemma {:induction false} BlockParts(names: seq<string>, i: nat)
    requires EntriesAllOk(names) && i < |names|
    ensures PartsAre(Split(Block(names, i), ','), names[i..])
    decreases |names| - i
  {
    if i == |names| - 1 {
      SplitNone("\n\t\t" + names[i] + "\n\t", ',');
      TrimPadded("\n\t\t", names[i], "\n\t");
      assert names[i..] == [names[i]];
    } else {
      BlockParts(names, i + 1);
      SplitFirst("\n\t\t" + names[i], ',', Block(names, i + 1));
      TrimPadded("\n\t\t", names[i], "");
      assert "\n\t\t" + names[i] + "" == "\n\t\t" + names[i];
      PartsCons("\n\t\t" + names[i], Split(Block(names, i + 1), ','), names[i], names[i + 1..]);
      TailFrom(names, i);
    }
  }

  /** Between the braces the commas separate the entries: one part for each, and none that is blank. */
  lemma PrintedParts(names: seq<string>)
    requires EntriesAllOk(names) && names != []
    ensures PartsAre(Split("\n" + PrintNames(names, 0) + "\t", ','), names)
  {
    BlockIsPrinted(names, 0);
    BlockParts(names, 0);
    assert names[0..] == names;
  }

  // ---------------------------------------------------------------- what is refused

  ghost predicate First(s: string, pat: string, k: nat) { At(s, pat, k) && forall i | i < k :: !At(s, pat, i) }

  lemma FirstIsIndex(s: string, pat: string, k: nat)
    requires First(s, pat, k)
    ensures Index(s, pat) == k && k + |pat| <= |s|
  {
    IndexUnique(s, pat, k);
  }

  /** A text without the keyword is the only one with no policy in it. */
  lemma MissingPolicyIff(s: string)
    ensures Parse(s) == Err(MissingPolicy) <==> Absent(s, "POLICY ")
  {
    if Locate(s).Ok? { NotMissingLater(s, Locate(s).value.0, Locate(s).value.1); }
  }

  lemma NotMissingLater(s: string, polIdx: nat, name: string)
    requires polIdx <= |s|
    ensures ParseRest(s, polIdx, name) != Err(MissingPolicy)
  {}

  /** The name ends at the first blank, tab or brace. */
  lemma NameEnds(n: string, c: char, rest: string)
    requires c == ' ' || c == '\t' || c == '{'
    requires ' ' !in n && '\t' !in n && '{' !in n
    ensures PolicyName(n + [c] + rest) == Ok(TrimSpace(n))
  {
    var s := n + [c] + rest;
    assert s[|n|] == c;
    assert forall i | 0 <= i < |n| :: s[i] == n[i];
    assert IndexAny(s, NAME_END) == |n|;
    assert s[..|n|] == n;
  }

  lemma NameNeverEnds(s: string)
    requires ' ' !in s && '\t' !in s && '{' !in s
    ensures PolicyName(s) == Err(MalformedPolicy)
  {}

  lemma Malformed(s: string, k: nat)
    requires First(s, "POLICY ", k) && ' ' !in s[k + 7..] && '\t' !in s[k + 7..] && '{' !in s[k + 7..]
    ensures Parse(s) == Err(MalformedPolicy)
  {
    FirstIsIndex(s, "POLICY ", k);
    NameNeverEnds(s[k + 7..]);
  }

  lemma DenyErrors(s: string, k: nat)
    requires k <= |s|
    ensures DenyBody(s, k) == Err(MissingDeny) <==> Absent(s[k..], "DENY {")
    ensures forall d: nat | First(s[k..], "DENY {", d) && '}' !in s[k + d + 6..] :: DenyBody(s, k) == Err(DenyNotClosed)
  {
    forall d: nat | First(s[k..], "DENY {", d) && '}' !in s[k + d + 6..] ensures DenyBody(s, k) == Err(DenyNotClosed) {
      FirstIsIndex(s[k..], "DENY {", d);
      NoBraceNoIndex(s[k + d + 6..]);
    }
  }

  lemma NoBraceNoIndex(s: string)
    requires '}' !in s
    ensures Index(s, "}") == -1
  {
    forall i ensures !At(s, "}", i) {
      if At(s, "}", i) { AtChar(s, "}", i, 0); }
    }
  }

  /** With the name found, the deny block is asked for first, then the tail. */
  lemma LaterErrors(s: string, k: nat, name: string)
    requires First(s, "POLICY ", k) && PolicyName(s[k + 7..]) == Ok(name)
    ensures DenyBody(s, k).Err? ==> Parse(s) == Err(DenyBody(s, k).error)
    ensures DenyBody(s, k).Ok? && Absent(s, "USE " + name + " DEFAULT ") ==> Parse(s) == Err(MissingUse)
  {
    FirstIsIndex(s, "POLICY ", k);
  }

  // ---------------------------------------------------------------- comments

  /** A comment is cut off where its slashes start, and nothing else is. */
  lemma CommentCut(a: string, x: string)
    requires NoComment(a + "/")
    ensures StripComment(a + "//" + x) == a && StripComment(a) == a
  {
    var s := a + "//" + x;
    assert s[|a|..|a| + 2] == "//";
    forall i | i < |a| ensures !At(s, "//", i) {
      if 0 <= i {
        assert s[i] == (a + "/")[i] && s[i + 1] == (a + "/")[i + 1];
        NotAt(s, "//", i, if s[i] == '/' then 1 else 0);
      }
    }
    IndexUnique(s, "//", |a|);
    assert s[..|a|] == a;
    assert forall i | 0 <= i < |a| :: a[i] == (a + "/")[i];
    NoCommentIndex(a);
  }

  ghost predicate AreLines(lines: seq<string>) { forall i | 0 <= i < |lines| :: '\n' !in lines[i] }

  lemma BodyOfLines(lines: seq<string>)
    requires lines != [] && AreLines(lines)
    ensures ParseBody(Join(lines, '\n')) == Entries(Split(Join(StripComments(lines), '\n'), ','))
  {
    SplitJoin(lines, '\n');
  }

  lemma {:induction false} StripConcat(a: seq<string>, b: seq<string>)
    ensures StripComments(a + b) == StripComments(a) + StripComments(b)
    decreases |a|
  {
    if a == [] {
      assert a + b == b;
    } else {
      StripConcat(a[1..], b);
      HeadOfConcat(a, b);
      AssocSeq([StripComment(a[0])], StripComments(a[1..]), StripComments(b));
    }
  }

  lemma StripOne(l: string)
    ensures StripComments([l]) == [StripComment(l)]
  {
    assert [l][1..] == [];
  }

  lemma StrippedAlike(before: seq<string>, l: string, m: string, after: seq<string>)
    requires StripComment(l) == StripComment(m)
    ensures StripComments(before + [l] + after) == StripComments(before + [m] + after)
  {
    StripOne(l);
    StripOne(m);
    StripConcat(before, [l]);
    StripConcat(before, [m]);
    StripConcat(before + [l], after);
    StripConcat(before + [m], after);
  }

  lemma LinesAround(before: seq<string>, l: string, after: seq<string>)
    requires AreLines(before) && AreLines(after) && '\n' !in l
    ensures before + [l] + after != [] && AreLines(before + [l] + after)
  {
    var all := before + [l] + after;
    assert |all| == |before| + 1 + |after|;
    forall i | 0 <= i < |all| ensures '\n' !in all[i] {
      assert all[i] == if i < |before| then before[i] else if i == |before| then l else after[i - |before| - 1];
    }
  }

  /** A comment on any line of a deny block changes no entry. */
  lemma CommentIgnored(before: seq<string>, a: string, x: string, after: seq<string>)
    requires AreLines(before) && AreLines(after) && '\n' !in a && '\n' !in x && NoComment(a + "/")
    ensures ParseBody(Join(before + [a + "//" + x] + after, '\n')) == ParseBody(Join(before + [a] + after, '\n'))
  {
    CommentCut(a, x);
    StrippedAlike(before, a + "//" + x, a, after);
    LinesAround(before, a + "//" + x, after);
    LinesAround(before, a, after);
    BodyOfLines(before + [a + "//" + x] + after);
    BodyOfLines(before + [a] + after);
  }

  /** So a policy with a commented line parses like the policy without the comment. */
  lemma CommentedPolicy(p: Policy, before: seq<string>, a: string, x: string, after: seq<string>)
    requires HeaderOk(p.header) && NameOk(p.name) && ActionOk(p.name, p.action) && !EndsInDeny(p.name)
    requires AreLines(before) && AreLines(after) && '\n' !in a && '\n' !in x && NoComment(a + "/")
    requires '}' !in Join(before + [a + "//" + x] + after, '\n') && '}' !in Join(before + [a] + after, '\n')
    ensures Parse(WithBody(p, Join(before + [a + "//" + x] + after, '\n')))
         == Parse(WithBody(p, Join(before + [a] + after, '\n')))
  {
    CommentIgnored(before, a, x, after);
    BodyIsRead(p, Join(before + [a + "//" + x] + after, '\n'));
    BodyIsRead(p, Join(before + [a] + after, '\n'));
  }

  // ---------------------------------------------------------------- the entries of a block

  lemma HeadOfConcat(a: seq<string>, b: seq<string>)
    requires a != []
    ensures (a + b)[0] == a[0] && (a + b)[1..] == a[1..] + b
  {}

  lemma AssocSeq(a: seq<string>, b: seq<string>, c: seq<string>)
    ensures (a + b) + c == a + (b + c)
  {}

  lemma {:induction false} EntriesConcat(a: seq<string>, b: seq<string>)
    ensures Entries(a + b) == Entries(a) + Entries(b)
    decreases |a|
  {
    if a == [] {
      assert a + b == b;
    } else {
      EntriesConcat(a[1..], b);
      HeadOfConcat(a, b);
      AssocSeq(EntryOf(a[0]), Entries(a[1..]), Entries(b));
    }
  }

  /** Without comments, a comma separates the entries before it from those after it. */
  lemma CommaSeparates(a: string, b: string)
    requires NoComment(a) && NoComment(b)
    ensures ParseBody(a + [','] + b) == ParseBody(a) + ParseBody(b)
  {
    NoCommentConcat(a, [',']);
    NoCommentConcat(a + [','], b);
    ParseBodyClean(a + [','] + b);
    ParseBodyClean(a);
    ParseBodyClean(b);
    SplitConcat(a, ',', b);
    EntriesConcat(Split(a, ','), Split(b, ','));
  }

  /** And what stands between commas is one entry, trimmed, or none if it is blank. */
  lemma OneEntryEach(a: string)
    requires NoComment(a) && ',' !in a
    ensures ParseBody(a) == if TrimSpace(a) == "" then [] else [TrimSpace(a)]
  {
    ParseBodyClean(a);
    SplitNone(a, ',');
    assert [a][1..] == [];
  }

  /** The first entry the parser reports when the policy's name ends in DENY. */
  function Misread(names: seq<string>): string { if names == [] then "DENY {" else "DENY {\n\t\t" + names[0] }

  lemma MisreadFirst(names: seq<string>)
    requires EntriesAllOk(names)
    ensures var parts := Split("\n\tDENY {" + Block(names, 0), ',');
      Entries(parts) != [] && Entries(parts)[0] == Misread(names)
  {
    SplitPrepend("\n\tDENY {", Block(names, 0), ',');
    FirstPart(names);
    var post := if |names| <= 1 then "\n\t" else "";
    if names == [] {
      MisreadNone();
    } else {
      MisreadTrim(names[0], post);
    }
  }

  lemma MisreadTrim(n: string, post: string)
    requires Trimmed(n) && n != "" && AllSpace(post)
    ensures TrimSpace("\n\tDENY {" + ("\n\t\t" + n + post)) == "DENY {\n\t\t" + n
  {
    MisreadPadding(n, post);
    TrimPadded("\n\t", "DENY {\n\t\t" + n, post);
  }

  lemma MisreadNone()
    ensures TrimSpace("\n\tDENY {" + "\n\t") == "DENY {"
  {
    assert "\n\tDENY {" + "\n\t" == "\n\t" + "DENY {" + "\n\t";
    TrimPadded("\n\t", "DENY {", "\n\t");
  }

  lemma MisreadPadding(n: string, post: string)
    requires Trimmed(n) && n != ""
    ensures "\n\tDENY {" + ("\n\t\t" + n + post) == "\n\t" + ("DENY {\n\t\t" + n) + post
    ensures Trimmed("DENY {\n\t\t" + n)
  {
    var a, b := "\n\tDENY {" + ("\n\t\t" + n + post), "\n\t" + ("DENY {\n\t\t" + n) + post;
    assert |a| == |b|;
    assert forall i | 0 <= i < 11 :: a[i] == b[i];
    assert forall i | 11 <= i < |a| :: a[i] == b[i];
    var t := "DENY {\n\t\t" + n;
    assert t[0] == 'D' && t[|t| - 1] == n[|n| - 1];
  }

  lemma EntriesInName(names: seq<string>)
    requires EntriesAllOk(names)
    ensures ParseBody("\n\tDENY {" + Block(names, 0)) != names
  {
    var open, block := "\n\tDENY {", Block(names, 0);
    BlockClean(names, 0);
    NoCommentConcat(open, block);
    ParseBodyClean(open + block);
    MisreadFirst(names);
    if names != [] { assert |Misread(names)| > |names[0]|; }
  }

  lemma FirstPart(names: seq<string>)
    requires EntriesAllOk(names)
    ensures Split(Block(names, 0), ',')[0] ==
      if names == [] then "\n\t" else "\n\t\t" + names[0] + (if |names| == 1 then "\n\t" else "")
  {
    if |names| <= 1 {
      SplitNone(Block(names, 0), ',');
    } else {
      SplitFirst("\n\t\t" + names[0], ',', Block(names, 1));
    }
  }

  lemma ParsedNames(s: string, polIdx: nat, body: string)
    requires Index(s, POLICY_KW) == polIdx && polIdx <= |s| && DenyBody(s, polIdx) == Ok(body)
    ensures Parse(s).Ok? ==> Parse(s).value.names == ParseBody(body)
  {}

  lemma NoRoundTrip(p: Policy)
    requires PolicyOk(p) && EndsInDeny(p.name)
    ensures Parse(Print(p)) != Ok(p)
  {
    PrintShape(p);
    BlockClean(p.names, 0);
    HeaderRead(p.header, p.name, Block(p.names, 0) + ("}" + Closing(p)));
    DenyReadInName(p.header, p.name, Block(p.names, 0), Closing(p));
    ParsedNames(Print(p), |p.header|, "\n\tDENY {" + Block(p.names, 0));
    EntriesInName(p.names);
  }

  /** For every text the parser accepts: printing and parsing again gives the same policy exactly
      when the policy's name does not end in DENY. */
  lemma RoundTripIff(s: string)
    ensures Parse(s).Ok? ==> (Parse(Print(Parse(s).value)) == Parse(s) <==> !EndsInDeny(Parse(s).value.name))
  {
    ParseGivesPolicyOk(s);
    if Parse(s).Ok? {
      if EndsInDeny(Parse(s).value.name) { NoRoundTrip(Parse(s).value); } else { RoundTrip(Parse(s).value); }
    }
  }

  /** How the parser reads a printed policy whose name ends in DENY. */
  lemma PrintedMisread(p: Policy)
    requires PolicyOk(p) && EndsInDeny(p.name)
    ensures Parse(Print(p)) == Ok(p.(names := ParseBody("\n\tDENY {" + Block(p.names, 0))))
  {
    PrintShape(p);
    BlockClean(p.names, 0);
    HeaderRead(p.header, p.name, Block(p.names, 0) + ("}" + Closing(p)));
    DenyReadInName(p.header, p.name, Block(p.names, 0), Closing(p));
    var pre := PrintTailShape(p);
    ActionFound(pre, p.name, p.action);
  }

  lemma NothingMisread()
    ensures ParseBody("\n\tDENY {" + Block([], 0)) == ["DENY {"]
  {
    BlockClean([], 0);
    NoCommentConcat("\n\tDENY {", Block([], 0));
    MisreadNone();
    OneEntryEach("\n\tDENY {" + Block([], 0));
  }

  lemma TooLong(t: string, p: string)
    requires |p| > |t|
    ensures Absent(t, p)
  {}

  lemma DenyPolicyOk(p: Policy)
    requires p.names == [] && p.header == "" && p.name == "DENY" && p.action == "ALLOW"
    ensures PolicyOk(p) && EndsInDeny(p.name)
  {
    TooLong(p.action, UsePattern(p.name));
  }

  lemma UseDeny()
    ensures UsePattern("DENY") + ("ALLOW" + "\n") == "USE DENY DEFAULT ALLOW\n"
  {}

  lemma OpenDeny()
    ensures OpeningLine("DENY") == "POLICY DENY {\n\tDENY {"
  {}

  /** A real text of this kind. */
  const DENY_TEXT: string := "POLICY DENY {\n\tDENY {" + "\n" + ("\t}" + ("\n}\n\n" + "USE DENY DEFAULT ALLOW\n"))

  lemma DenyPolicyPrints(p: Policy)
    requires p.names == [] && p.header == "" && p.name == "DENY" && p.action == "ALLOW"
    ensures Print(p) == DENY_TEXT
  {
    UseDeny();
    OpenDeny();
    assert PrintNames(p.names, 0) == "";
    assert "" + OpeningLine(p.name) == OpeningLine(p.name);
    assert PrintHead(p) + "" == PrintHead(p);
  }

  /** The parser accepts it, reads a deny entry that is not there, and does not read the printed result
      back. */
  lemma DenyNameMisread()
    ensures Parse(DENY_TEXT) == Ok(Policy(["DENY {"], "", "DENY", "ALLOW"))
    ensures Parse(Print(Parse(DENY_TEXT).value)) != Parse(DENY_TEXT)
  {
    var p := Policy([], "", "DENY", "ALLOW");
    DenyPolicyOk(p);
    DenyPolicyPrints(p);
    PrintedMisread(p);
    NothingMisread();
    RoundTripIff(DENY_TEXT);
  }

  // ---------------------------------------------------------------- the additive merge

  predicate IsDigits(s: string) { s != "" && forall i | 0 <= i < |s| :: '0' <= s[i] <= '9' }

  /** The numeric form SYSCALL[n]. */
  predicate IsNumericSyscall(e: string) {
    |e| > 9 && e[..8] == "SYSCALL[" && e[|e| - 1] == ']' && IsDigits(e[8..|e| - 1])
  }

  predicate ValidSyscall(table: set<string>, e: string) { e in table || IsNumericSyscall(e) }

  lemma NumericForm(e: string, d: string)
    requires d != "" && forall i | 0 <= i < |d| :: '0' <= d[i] <= '9'
    ensures IsNumericSyscall("SYSCALL[" + d + "]")
    ensures IsNumericSyscall(e) ==> exists n :: IsDigits(n) && e == "SYSCALL[" + n + "]"
  {
    var f := "SYSCALL[" + d + "]";
    assert f[..8] == "SYSCALL[" && f[8..|f| - 1] == d;
    if IsNumericSyscall(e) {
      var n := e[8..|e| - 1];
      assert e == e[..8] + n + [e[|e| - 1]];
      assert IsDigits(n) && e == "SYSCALL[" + n + "]";
    }
  }

  /** The syscall names contain no character that means anything in a policy. */
  ghost predicate TableOk(table: set<string>) {
    forall e | e in table :: e != "" && forall i | 0 <= i < |e| :: !IsSpace(e[i]) && e[i] !in {',', '}', '/'}
  }

  predicate Acceptable(table: set<string>, extra: string) {
    TrimSpace(extra) == "" || ValidSyscall(table, TrimSpace(extra))
  }

  /** An extra that may be given: nothing, a name of the table, or the numeric form with decimal digits. */
  ghost predicate Known(table: set<string>, extra: string) {
    var e := TrimSpace(extra);
    e == "" || e in table || exists d :: IsDigits(d) && e == "SYSCALL[" + d + "]"
  }

  lemma KnownMeans(table: set<string>, extra: string)
    ensures Acceptable(table, extra) <==> Known(table, extra)
  {
    var e := TrimSpace(extra);
    NumericForm(e, "0");
    if d :| IsDigits(d) && e == "SYSCALL[" + d + "]" { NumericForm(e, d); }
  }

  /** Append each extra that is not blank and not listed yet. */
  function Merge(names: seq<string>, extras: seq<string>): seq<string>
    decreases |extras|
  {
    if extras == [] then names
    else
      var e := TrimSpace(extras[0]);
      Merge(if e == "" || e in names then names else names + [e], extras[1..])
  }

  predicate AllAcceptable(table: set<string>, extras: seq<string>) {
    forall i | 0 <= i < |extras| :: Acceptable(table, extras[i])
  }

  lemma ValidSyscallOk(table: set<string>, e: string)
    requires TableOk(table) && ValidSyscall(table, e)
    ensures EntryOk(e)
  {
    if e !in table {
      var d := e[8..|e| - 1];
      assert forall i | 8 <= i < |e| - 1 :: e[i] == d[i - 8];
      assert forall i | 0 <= i < 8 :: e[i] == e[..8][i];
    }
  }

  /** The merged list starts with the whole global list and adds distinct new entries to it. */
  lemma {:induction false} MergeAdds(table: set<string>, names: seq<string>, extras: seq<string>)
    requires TableOk(table) && EntriesAllOk(names) && AllAcceptable(table, extras)
    ensures var m := Merge(names, extras);
      && EntriesAllOk(m)
      && names <= m
      && (forall i, j | 0 <= i < j < |m| && j >= |names| :: m[i] != m[j])
    decreases |extras|
  {
    if extras != [] {
      var e := TrimSpace(extras[0]);
      assert Acceptable(table, extras[0]);
      if e != "" { ValidSyscallOk(table, e); }
      MergeAdds(table, if e == "" || e in names then names else names + [e], extras[1..]);
    }
  }

  /** The merged deny set is the union of the global entries and the extras that are not blank. */
  lemma {:induction false} MergeIsUnion(names: seq<string>, extras: seq<string>, e: string)
    ensures e in Merge(names, extras) <==>
            e in names || (e != "" && exists i :: 0 <= i < |extras| && TrimSpace(extras[i]) == e)
    decreases |extras|
  {
    if extras != [] {
      var x, rest := TrimSpace(extras[0]), extras[1..];
      var next := if x == "" || x in names then names else names + [x];
      MergeIsUnion(next, rest, e);
      if i :| 0 <= i < |extras| && TrimSpace(extras[i]) == e {
        assert i == 0 || TrimSpace(rest[i - 1]) == e;
      }
      if j :| 0 <= j < |rest| && TrimSpace(rest[j]) == e { assert TrimSpace(extras[j + 1]) == e; }
    }
  }

  ghost predicate FirstMention(extras: seq<string>, i: nat, e: string) {
    i < |extras| && TrimSpace(extras[i]) == e && forall k | 0 <= k < i :: TrimSpace(extras[k]) != e
  }

  /** The k-th entry of m after names is new, and extra i is the first to mention it. */
  ghost predicate NewEntry(names: seq<string>, extras: seq<string>, m: seq<string>, i: nat, k: nat) {
    |names| + k < |m| && m[|names| + k] != "" && m[|names| + k] !in names && FirstMention(extras, i, m[|names| + k])
  }

  /** The entries of m after names are new, and extra at[k] is the first to mention the k-th. */
  ghost predicate InOrder(names: seq<string>, extras: seq<string>, m: seq<string>, at: seq<nat>) {
    && |m| == |names| + |at| && names <= m
    && (forall k | 0 <= k < |at| :: NewEntry(names, extras, m, at[k], k))
    && Increasing(at)
  }

  ghost predicate Increasing(at: seq<nat>) { forall k, l | 0 <= k < l < |at| :: at[k] < at[l] }

  lemma ShiftIncreasing(at: seq<nat>)
    requires Increasing(at)
    ensures Increasing(Shifted(at)) && Increasing([0] + Shifted(at))
  {}

  lemma MentionLater(extras: seq<string>, i: nat, e: string)
    requires extras != [] && FirstMention(extras[1..], i, e) && TrimSpace(extras[0]) != e
    ensures FirstMention(extras, i + 1, e)
  {
    forall k | 0 <= k < i + 1 ensures TrimSpace(extras[k]) != e {
      if k > 0 { assert extras[k] == extras[1..][k - 1]; }
    }
  }

  function Shifted(at: seq<nat>): (r: seq<nat>)
    ensures |r| == |at| && forall k | 0 <= k < |at| :: r[k] == at[k] + 1
  {
    seq(|at|, k requires 0 <= k < |at| => at[k] + 1)
  }

  lemma OrderSkip(names: seq<string>, extras: seq<string>, m: seq<string>, at: seq<nat>)
    requires extras != [] && InOrder(names, extras[1..], m, at)
    requires TrimSpace(extras[0]) == "" || TrimSpace(extras[0]) in names
    ensures InOrder(names, extras, m, Shifted(at))
  {
    ShiftIncreasing(at);
    forall k | 0 <= k < |at| ensures NewEntry(names, extras, m, Shifted(at)[k], k) {
      assert NewEntry(names, extras[1..], m, at[k], k);
      MentionLater(extras, at[k], m[|names| + k]);
    }
  }

  lemma TakeEntry(names: seq<string>, extras: seq<string>, m: seq<string>, i: nat, k: nat)
    requires extras != [] && NewEntry(names + [TrimSpace(extras[0])], extras[1..], m, i, k)
    ensures NewEntry(names, extras, m, i + 1, k + 1)
  {
    var e, x := TrimSpace(extras[0]), m[|names| + 1 + k];
    assert x !in names + [e];
    assert x != e by { assert (names + [e])[|names|] == e; }
    assert names <= names + [e];
    MentionLater(extras, i, x);
  }

  lemma OrderTake(names: seq<string>, extras: seq<string>, m: seq<string>, at: seq<nat>)
    requires extras != [] && TrimSpace(extras[0]) != "" && TrimSpace(extras[0]) !in names
    requires InOrder(names + [TrimSpace(extras[0])], extras[1..], m, at)
    ensures InOrder(names, extras, m, [0] + Shifted(at))
  {
    PrefixOf(names, TrimSpace(extras[0]), m);
    ShiftIncreasing(at);
    forall k | 0 <= k < |at| + 1 ensures NewEntry(names, extras, m, ([0] + Shifted(at))[k], k) {
      if k > 0 {
        assert ([0] + Shifted(at))[k] == at[k - 1] + 1;
        TakeEntry(names, extras, m, at[k - 1], k - 1);
      } else {
        assert FirstMention(extras, 0, TrimSpace(extras[0]));
      }
    }
  }

  lemma PrefixOf(names: seq<string>, e: string, m: seq<string>)
    requires names + [e] <= m
    ensures names <= m && m[|names|] == e
  {
    assert m[|names|] == (names + [e])[|names|];
  }

  /** New entries appear in the order in which the extras first mention them. */
  lemma {:induction false} MergeOrder(names: seq<string>, extras: seq<string>) returns (at: seq<nat>)
    ensures InOrder(names, extras, Merge(names, extras), at)
    decreases |extras|
  {
    if extras == [] {
      at := [];
    } else {
      var e := TrimSpace(extras[0]);
      if e == "" || e in names {
        at := MergeOrder(names, extras[1..]);
        OrderSkip(names, extras, Merge(names, extras), at);
        at := Shifted(at);
      } else {
        at := MergeOrder(names + [e], extras[1..]);
        OrderTake(names, extras, Merge(names, extras), at);
        at := [0] + Shifted(at);
      }
    }
  }

  // ---------------------------------------------------------------- the combined policy

  /** Unknown syscalls are refused before the policy is looked at. */
  function Refusal(table: set<string>, extras: seq<string>): (r: seq<string>)
    ensures r == [] <==> AllAcceptable(table, extras)
  {
    if extras == [] then []
    else if !Acceptable(table, extras[0]) then [TrimSpace(extras[0])]
    else
      assert AllAcceptable(table, extras) <==> AllAcceptable(table, extras[1..]) by {
        assert extras == [extras[0]] + extras[1..];
      }
      Refusal(table, extras[1..])
  }

  /** The extra that is reported is the first that is refused. */
  lemma {:induction false} RefusesTheFirst(table: set<string>, extras: seq<string>, i: nat)
    requires i < |extras| && !Acceptable(table, extras[i]) && forall k | 0 <= k < i :: Acceptable(table, extras[k])
    ensures Refusal(table, extras) == [TrimSpace(extras[i])]
    decreases |extras|
  {
    if i > 0 { RefusesTheFirst(table, extras[1..], i - 1); }
  }

  function Combined(pol: string, table: set<string>, extras: seq<string>): Result<string> {
    var bad := Refusal(table, extras);
    if bad != [] then Err(UnknownSyscall(bad[0]))
    else
      var p := Parse(pol);
      if p.Err? then Err(p.error) else Ok(Print(p.value.(names := Merge(p.value.names, extras))))
  }

  /** An unknown extra is reported whatever the policy is; with none, the policy's own error is. */
  lemma CombinedErrors(pol: string, table: set<string>, extras: seq<string>, i: nat)
    requires i <= |extras| && forall k | 0 <= k < i :: Known(table, extras[k])
    ensures i < |extras| && !Known(table, extras[i]) ==>
      Combined(pol, table, extras) == Err(UnknownSyscall(TrimSpace(extras[i])))
    ensures i == |extras| && Parse(pol).Err? ==> Combined(pol, table, extras) == Err(Parse(pol).error)
  {
    forall k | 0 <= k < |extras| ensures Acceptable(table, extras[k]) <==> Known(table, extras[k]) {
      KnownMeans(table, extras[k]);
    }
    if i < |extras| && !Known(table, extras[i]) { RefusesTheFirst(table, extras, i); }
  }

  ghost predicate IsUnion(m: seq<string>, names: seq<string>, extras: seq<string>) {
    forall e :: e in m <==> e in names || (e != "" && exists i :: 0 <= i < |extras| && TrimSpace(extras[i]) == e)
  }

  lemma MergedOk(table: set<string>, p: Policy, extras: seq<string>)
    requires TableOk(table) && AllAcceptable(table, extras) && PolicyOk(p)
    ensures PolicyOk(p.(names := Merge(p.names, extras)))
    ensures p.names <= Merge(p.names, extras) && IsUnion(Merge(p.names, extras), p.names, extras)
  {
    MergeAdds(table, p.names, extras);
    forall e ensures e in Merge(p.names, extras) <==>
        e in p.names || (e != "" && exists i :: 0 <= i < |extras| && TrimSpace(extras[i]) == e) {
      MergeIsUnion(p.names, extras, e);
    }
  }

  /** The combined policy parses back to the global one with the extras added (same header, name and
      default action, the global entries first and in order, and the deny set exactly the union) if and
      only if the policy's name does not end in DENY. */
  lemma CombinedReadsBack(pol: string, table: set<string>, extras: seq<string>)
    requires TableOk(table)
    ensures Combined(pol, table, extras).Ok? <==>
      Parse(pol).Ok? && forall i | 0 <= i < |extras| :: Known(table, extras[i])
    ensures Combined(pol, table, extras).Ok? ==>
      (ReadsBack(Parse(pol).value, extras, Combined(pol, table, extras).value) <==> !EndsInDeny(Parse(pol).value.name))
  {
    forall i | 0 <= i < |extras| ensures Acceptable(table, extras[i]) <==> Known(table, extras[i]) {
      KnownMeans(table, extras[i]);
    }
    if Combined(pol, table, extras).Ok? {
      var p := Parse(pol).value;
      var q := p.(names := Merge(p.names, extras));
      ParseGivesPolicyOk(pol);
      MergedOk(table, p, extras);
      if EndsInDeny(p.name) { NoRoundTrip(q); } else { RoundTrip(q); }
    }
  }

  ghost predicate ReadsBack(p: Policy, extras: seq<string>, text: string) {
    var q := p.(names := Merge(p.names, extras));
    Parse(text) == Ok(q) && p.names <= q.names && IsUnion(q.names, p.names, extras)
  }

  // ---------------------------------------------------------------- the loops

  method ParsePolicy(s: string) returns (r: Result<Policy>)
    ensures r == Parse(s)
  {
    var start := Locate(s);
    if start.Err? { return Err(start.error); }
    r := ReadRest(s, start.value.0, start.value.1);
  }

  method ReadRest(s: string, polIdx: nat, name: string) returns (r: Result<Policy>)
    requires polIdx <= |s|
    ensures r == ParseRest(s, polIdx, name)
  {
    var body := DenyBody(s, polIdx);
    if body.Err? { return Err(body.error); }
    var names := ReadEntries(body.value);
    var action := ParseAction(s, name);
    if action == "" { return Err(MissingUse); }
    return Ok(Policy(names, s[..polIdx], name, action));
  }

  method ReadEntries(body: string) returns (names: seq<string>)
    ensures names == ParseBody(body)
  {
    var clean := CleanLines(Split(body, '\n'));
    names := TrimParts(Split(Join(clean, '\n'), ','));
  }

  method CleanLines(lines: seq<string>) returns (clean: seq<string>)
    ensures clean == StripComments(lines)
  {
    clean := [];
    for i := 0 to |lines|
      invariant |clean| == i && forall j | 0 <= j < i :: clean[j] == StripComment(lines[j])
    {
      clean := clean + [StripComment(lines[i])];
    }
  }

  method TrimParts(parts: seq<string>) returns (names: seq<string>)
    ensures names == Entries(parts)
  {
    names := [];
    for i := 0 to |parts|
      invariant names + Entries(parts[i..]) == Entries(parts)
    {
      var n := TrimSpace(parts[i]);
      EntriesNext(parts, i, names);
      if n != "" { names := names + [n]; }
    }
  }

  lemma EntriesNext(parts: seq<string>, i: nat, names: seq<string>)
    requires i < |parts|
    ensures names + Entries(parts[i..]) ==
      (if TrimSpace(parts[i]) != "" then names + [TrimSpace(parts[i])] else names) + Entries(parts[i + 1..])
  {
    var tail := parts[i..];
    assert tail[0] == parts[i] && tail[1..] == parts[i + 1..];
  }

  method CombinedWith(pol: string, table: set<string>, extras: seq<string>) returns (r: Result<string>)
    ensures r == Combined(pol, table, extras)
  {
    for i := 0 to |extras|
      invariant Refusal(table, extras) == Refusal(table, extras[i..])
    {
      var e := TrimSpace(extras[i]);
      assert extras[i..][0] == extras[i] && extras[i..][1..] == extras[i + 1..];
      if !(e == "" || ValidSyscall(table, e)) { return Err(UnknownSyscall(e)); }
    }
    var p := ParsePolicy(pol);
    if p.Err? { return Err(p.error); }
    var names := MergeExtras(p.value.names, extras);
    var text := WritePolicy(p.value.(names := names));
    return Ok(text);
  }

  method MergeExtras(global: seq<string>, extras: seq<string>) returns (names: seq<string>)
    ensures names == Merge(global, extras)
  {
    names := global;
    var seen := map[];
    for i := 0 to |global|
      invariant forall e :: e in seen <==> e in global[..i]
    {
      seen := seen[global[i] := true];
    }
    for i := 0 to |extras|
      invariant forall e :: e in seen <==> e in names
      invariant Merge(names, extras[i..]) == Merge(global, extras)
    {
      var e := TrimSpace(extras[i]);
      assert extras[i..][0] == extras[i] && extras[i..][1..] == extras[i + 1..];
      if !(e == "" || e in seen) {
        names := names + [e];
        seen := seen[e := true];
      }
    }
  }

  method WritePolicy(p: Policy) returns (text: string)
    ensures text == Print(p)
  {
    text := p.header + (POLICY_KW + p.name + " {\n\t" + DENY_KW) + "\n";
    for i := 0 to |p.names|
      invariant text + PrintNames(p.names, i) == PrintHead(p) + PrintNames(p.names, 0)
    {
      var line := "\t\t" + p.names[i] + (if i < |p.names| - 1 then "," else "") + "\n";
      assert text + PrintNames(p.names, i) == text + (line + PrintNames(p.names, i + 1));
      text := text + line;
    }
    text := text + ("\t}" + ("\n}\n\n" + (UsePattern(p.name) + (p.action + "\n"))));
  }
}
