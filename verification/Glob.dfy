/**
  The globs of the file menu rules: `match_glob` compiles a glob to the text of a regular
  expression, and `allowed_operations` takes the last rule whose glob matches.

  The regular expression is parsed and given its meaning here, for the constructs the compiler
  emits, as Python's `re` module documents them; on any other construct the parser fails.
 */
module Glob {
  datatype Option<+T> = None | Some(value: T)

  // --- Regular expressions ---

  datatype Regex =
    | Empty
    | AnyChar                        // .
    | NotSlash                       // [^/]
    | Literal(c: char)
    | Cat(first: Regex, second: Regex)
    | Star(body: Regex)
    | Maybe(body: Regex)

  /** `re.fullmatch` without flags. */
  predicate FullMatch(r: Regex, s: string)
    decreases r, |s|
  {
    match r
    case Empty => s == ""
    case AnyChar => |s| == 1 && s[0] != '\n'
    case NotSlash => |s| == 1 && s[0] != '/'
    case Literal(c) => s == [c]
    case Cat(a, b) => exists k :: 0 <= k <= |s| && FullMatch(a, s[..k]) && FullMatch(b, s[k..])
    case Star(a) => s == "" || exists k :: 0 < k <= |s| && FullMatch(a, s[..k]) && FullMatch(r, s[k..])
    case Maybe(a) => s == "" || FullMatch(a, s)
  }

  const SPECIAL: set<char> := {
    '(', ')', '[', ']', '{', '}', '?', '*', '+', '-', '|', '^', '$', '\\', '.', '&', '~', '#', ' ', '\t', '\n', '\r',
        '\U{B}', '\U{C}'
  }

  /** `re.escape` on one character. */
  function Escape(c: char): string {
    if c in SPECIAL then ['\\', c] else [c]
  }

  predicate IsLetterOrDigit(c: char) {
    '0' <= c <= '9' || 'a' <= c <= 'z' || 'A' <= c <= 'Z'
  }

  datatype Parsed = Failed | Parsed(regex: Regex, rest: string)

  /** Everything up to a closing parenthesis or the end. */
  function ParseItems(p: string): (r: Parsed)
    ensures r.Parsed? ==> |r.rest| <= |p|
    decreases |p|, 2
  {
    if p == "" || p[0] == ')' then Parsed(Empty, p)
    else
      var item := ParseItem(p);
      if item.Failed? then Failed
      else
        var items := ParseItems(item.rest);
        if items.Failed? then Failed else Parsed(Cat(item.regex, items.regex), items.rest)
  }

  function ParseItem(p: string): (r: Parsed)
    requires p != ""
    ensures r.Parsed? ==> |r.rest| < |p|
    decreases |p|, 1
  {
    var atom := ParseAtom(p);
    if atom.Failed? then Failed
    else if atom.rest == "" then atom
    else if atom.rest[0] == '*' then Repeated(Star(atom.regex), atom.rest[1..])
    else if atom.rest[0] == '?' then Repeated(Maybe(atom.regex), atom.rest[1..])
    else if atom.rest[0] == '+' || atom.rest[0] == '{' then Failed
    else atom
  }

  predicate IsRepetition(c: char) {
    c == '*' || c == '?' || c == '+' || c == '{'
  }

  /** A second repetition would make the first one lazy or possessive. */
  function Repeated(r: Regex, rest: string): Parsed {
    if rest != "" && IsRepetition(rest[0]) then Failed else Parsed(r, rest)
  }

  function ParseAtom(p: string): (r: Parsed)
    requires p != ""
    ensures r.Parsed? ==> |r.rest| < |p|
    decreases |p|, 0
  {
    if p[0] == '.' then Parsed(AnyChar, p[1..])
    else if p[0] == '\\' then
      if |p| > 1 && !IsLetterOrDigit(p[1]) then Parsed(Literal(p[1]), p[2..]) else Failed
    else if p[0] == '[' then
      if |p| > 3 && p[..4] == "[^/]" then Parsed(NotSlash, p[4..]) else Failed
    else if p[0] == '(' then
      if |p| > 2 && p[..3] == "(?:" then
        var body := ParseItems(p[3..]);
        if body.Parsed? && body.rest != "" then Parsed(body.regex, body.rest[1..]) else Failed
      else Failed
    else if p[0] in {')', '*', '?', '+', '{', '|', '^', '$'} then Failed
    else Parsed(Literal(p[0]), p[1..])
  }

  // --- The compiler ---

  function OneCharPattern(c: char): string {
    if c == '*' then "[^/]*" else if c == '?' then "[^/]" else Escape(c)
  }

  function PatternOf(glob: string): string {
    if glob == "" then ""
    else if "**/" <= glob then "(?:.*/)?" + PatternOf(glob[3..])
    else if "**" <= glob then ".*" + PatternOf(glob[2..])
    else OneCharPattern(glob[0]) + PatternOf(glob[1..])
  }

  method CompileGlob(glob: string) returns (pattern: string)
    ensures pattern == PatternOf(glob)
  {
    pattern := "";
    var i := 0;
    while i < |glob|
      invariant 0 <= i <= |glob|
      invariant pattern + PatternOf(glob[i..]) == PatternOf(glob)
    {
      PatternStep(glob, i);
      if i + 3 <= |glob| && glob[i..i + 3] == "**/" {
        pattern := Append(pattern, "(?:.*/)?", PatternOf(glob[i + 3..]));
        i := i + 3;
        continue;
      }
      if i + 2 <= |glob| && glob[i..i + 2] == "**" {
        pattern := Append(pattern, ".*", PatternOf(glob[i + 2..]));
        i := i + 2;
        continue;
      }
      var c := glob[i];
      pattern := Append(pattern, OneCharPattern(c), PatternOf(glob[i + 1..]));
      i := i + 1;
    }
    assert glob[i..] == "";
  }

  /** Concatenation, associated for what is still to come. */
  function Append(pattern: string, piece: string, ghost rest: string): (r: string)
    ensures r == pattern + piece
    ensures r + rest == pattern + (piece + rest)
  {
    pattern + piece
  }

  lemma PatternStep(glob: string, i: nat)
    requires i < |glob|
    ensures PatternOf(glob[i..]) ==
            if i + 3 <= |glob| && glob[i..i + 3] == "**/" then "(?:.*/)?" + PatternOf(glob[i + 3..])
            else if i + 2 <= |glob| && glob[i..i + 2] == "**" then ".*" + PatternOf(glob[i + 2..])
            else OneCharPattern(glob[i]) + PatternOf(glob[i + 1..])
  {
    var g := glob[i..];
    assert g[1..] == glob[i + 1..];
    if i + 3 <= |glob| {
      assert g[..3] == glob[i..i + 3] && g[3..] == glob[i + 3..];
    }
    if i + 2 <= |glob| {
      assert g[..2] == glob[i..i + 2] && g[2..] == glob[i + 2..];
    }
  }

  function StripLeft(path: string): (s: string)
    ensures s == "" || s[0] != '/'
  {
    if path != "" && path[0] == '/' then StripLeft(path[1..]) else path
  }

  function StripRight(path: string): (s: string)
    ensures s <= path
    ensures s == "" || s[|s| - 1] != '/'
  {
    if path != "" && path[|path| - 1] == '/' then StripRight(path[..|path| - 1]) else path
  }

  /** `path.strip("/")` */
  function Strip(path: string): (s: string)
    ensures s == "" || (s[0] != '/' && s[|s| - 1] != '/')
  {
    StripRight(StripLeft(path))
  }

  predicate OnlySlashes(s: string) {
    forall c :: c in s ==> c == '/'
  }

  lemma {:induction false} StripLeftDrops(path: string) returns (dropped: string)
    ensures OnlySlashes(dropped) && path == dropped + StripLeft(path)
    decreases |path|
  {
    dropped := "";
    if path != "" && path[0] == '/' {
      var rest := StripLeftDrops(path[1..]);
      dropped := "/" + rest;
    }
  }

  lemma {:induction false} StripRightDrops(path: string) returns (dropped: string)
    ensures OnlySlashes(dropped) && path == StripRight(path) + dropped
    decreases |path|
  {
    dropped := "";
    if path != "" && path[|path| - 1] == '/' {
      var inner := path[..|path| - 1];
      var rest := StripRightDrops(inner);
      dropped := rest + "/";
      assert path == inner + "/";
      assert (StripRight(inner) + rest) + "/" == StripRight(inner) + (rest + "/");
    } else {
      assert path + "" == path;
    }
  }

  /** Nothing but the slashes at the ends goes. */
  lemma StripDropsSlashes(path: string) returns (left: string, right: string)
    ensures OnlySlashes(left) && OnlySlashes(right) && path == left + Strip(path) + right
  {
    left := StripLeftDrops(path);
    right := StripRightDrops(StripLeft(path));
  }

  // --- What a glob means ---

  predicate OneLine(s: string) {
    '\n' !in s
  }

  /** `*` and `?` stay within a folder; `**` takes anything on one line; in front of a slash it takes whole folders. */
  predicate Accepts(glob: string, path: string)
    decreases |glob|
  {
    if glob == "" then path == ""
    else if "**/" <= glob then
      Accepts(glob[3..], path) ||
      exists k :: 0 < k <= |path| && OneLine(path[..k]) && path[k - 1] == '/' && Accepts(glob[3..], path[k..])
    else if "**" <= glob then exists k :: 0 <= k <= |path| && OneLine(path[..k]) && Accepts(glob[2..], path[k..])
    else if glob[0] == '*' then exists k :: 0 <= k <= |path| && '/' !in path[..k] && Accepts(glob[1..], path[k..])
    else path != "" && (if glob[0] == '?' then path[0] != '/' else path[0] == glob[0]) && Accepts(glob[1..], path[1..])
  }

  const FOLDERS := Cat(Star(AnyChar), Cat(Literal('/'), Empty))

  /** The regular expression a glob stands for. */
  function Translate(glob: string): Regex {
    if glob == "" then Empty
    else if "**/" <= glob then Cat(Maybe(FOLDERS), Translate(glob[3..]))
    else if "**" <= glob then Cat(Star(AnyChar), Translate(glob[2..]))
    else
      var first := if glob[0] == '*' then Star(NotSlash) else if glob[0] == '?' then NotSlash else Literal(glob[0]);
      Cat(first, Translate(glob[1..]))
  }

  // --- The pattern parses to that expression ---

  /** A pattern never starts with something that would repeat what is in front of it or close a group. */
  predicate Separate(p: string) {
    p == "" || (!IsRepetition(p[0]) && p[0] != ')')
  }

  lemma PatternIsSeparate(glob: string)
    ensures Separate(PatternOf(glob))
  {
    if glob != "" && !("**" <= glob) && glob[0] != '*' && glob[0] != '?' {
      assert PatternOf(glob)[0] == Escape(glob[0])[0];
    }
  }

  lemma Tail(c: char, q: string)
    ensures ([c] + q)[0] == c && ([c] + q)[1..] == q
  {
  }

  /** What is left of the group from the slash on. */
  lemma ParseSlash(rest: string)
    ensures ParseItems(['/'] + ([')'] + rest)) == Parsed(Cat(Literal('/'), Empty), [')'] + rest)
  {
    var t := [')'] + rest;
    Tail('/', t);
    Tail(')', rest);
    assert ParseAtom(['/'] + t) == Parsed(Literal('/'), t);
    assert ParseItem(['/'] + t) == Parsed(Literal('/'), t);
    assert ParseItems(t) == Parsed(Empty, t);
  }

  lemma ParseGroupBody(rest: string)
    ensures ParseItems(['.'] + (['*'] + (['/'] + ([')'] + rest)))) == Parsed(FOLDERS, [')'] + rest)
  {
    var t := ['/'] + ([')'] + rest);
    Tail('.', ['*'] + t);
    Tail('*', t);
    Tail('/', [')'] + rest);
    assert ParseAtom(['.'] + (['*'] + t)) == Parsed(AnyChar, ['*'] + t);
    assert ParseItem(['.'] + (['*'] + t)) == Parsed(Star(AnyChar), t);
    ParseSlash(rest);
  }

  lemma ParseFolders(q: string)
    requires Separate(q)
    ensures ParseItem("(?:.*/)?" + q) == Parsed(Maybe(FOLDERS), q)
  {
    var rest := ['?'] + q;
    var body := ['.'] + (['*'] + (['/'] + ([')'] + rest)));
    var p := "(?:" + body;
    assert "(?:.*/)?" + q == p && p[..3] == "(?:" && p[3..] == body;
    ParseGroupBody(rest);
    Tail(')', rest);
    Tail('?', q);
    assert ParseAtom(p) == Parsed(FOLDERS, rest);
  }

  lemma ParseClass(q: string)
    requires Separate(q)
    ensures ParseItem("[^/]" + q) == Parsed(NotSlash, q)
    ensures ParseItem("[^/]*" + q) == Parsed(Star(NotSlash), q)
    ensures ParseItem(".*" + q) == Parsed(Star(AnyChar), q)
  {
    assert ("[^/]" + q)[..4] == "[^/]" && ("[^/]" + q)[4..] == q;
    assert ParseAtom("[^/]" + q) == Parsed(NotSlash, q);
    assert ("[^/]*" + q)[..4] == "[^/]" && ("[^/]*" + q)[4..] == "*" + q && ("*" + q)[1..] == q;
    assert ParseAtom("[^/]*" + q) == Parsed(NotSlash, "*" + q);
    assert (".*" + q)[1..] == "*" + q;
    assert ParseAtom(".*" + q) == Parsed(AnyChar, "*" + q);
  }

  lemma ParseEscaped(c: char, q: string)
    requires Separate(q)
    ensures ParseItem(Escape(c) + q) == Parsed(Literal(c), q)
  {
    if c in SPECIAL {
      assert (['\\', c] + q)[2..] == q;
      assert ParseAtom(['\\', c] + q) == Parsed(Literal(c), q);
    } else {
      assert ([c] + q)[1..] == q;
      assert ParseAtom([c] + q) == Parsed(Literal(c), q);
    }
  }

  /** Compiling and parsing is translating: the text of the pattern means what was intended, for every glob. */
  lemma {:induction false} PatternParses(glob: string)
    ensures ParseItems(PatternOf(glob)) == Parsed(Translate(glob), "")
    decreases |glob|
  {
    if glob != "" {
      var k := if "**/" <= glob then 3 else if "**" <= glob then 2 else 1;
      var q := PatternOf(glob[k..]);
      PatternIsSeparate(glob[k..]);
      PatternIsSeparate(glob);
      PatternParses(glob[k..]);
      ParseFolders(q);
      ParseClass(q);
      ParseEscaped(glob[0], q);
    }
  }

  // --- and that expression means what the glob means ---

  lemma {:induction false} StarOfAnyChar(s: string)
    ensures FullMatch(Star(AnyChar), s) <==> OneLine(s)
    decreases |s|
  {
    if s != "" {
      assert s == s[..1] + s[1..];
      StarOfAnyChar(s[1..]);
      assert FullMatch(AnyChar, s[..1]) <==> s[0] != '\n';
    }
  }

  lemma {:induction false} StarOfNotSlash(s: string)
    ensures FullMatch(Star(NotSlash), s) <==> '/' !in s
    decreases |s|
  {
    if s != "" {
      assert s == s[..1] + s[1..];
      StarOfNotSlash(s[1..]);
      assert FullMatch(NotSlash, s[..1]) <==> s[0] != '/';
    }
  }

  lemma SlashMatches(s: string)
    ensures FullMatch(Cat(Literal('/'), Empty), s) <==> s == "/"
  {
    if s == "/" {
      assert s[..1] == "/" && s[1..] == "";
      assert FullMatch(Literal('/'), s[..1]) && FullMatch(Empty, s[1..]);
    }
  }

  /** `.*` and a slash: one line that ends in a slash. */
  lemma FoldersMatch(s: string)
    ensures FullMatch(FOLDERS, s) <==> s != "" && s[|s| - 1] == '/' && OneLine(s)
  {
    var slash := Cat(Literal('/'), Empty);
    if FullMatch(FOLDERS, s) {
      var k :| 0 <= k <= |s| && FullMatch(Star(AnyChar), s[..k]) && FullMatch(slash, s[k..]);
      StarOfAnyChar(s[..k]);
      SlashMatches(s[k..]);
      assert s == s[..k] + "/";
    }
    if s != "" && s[|s| - 1] == '/' && OneLine(s) {
      var k := |s| - 1;
      StarOfAnyChar(s[..k]);
      SlashMatches(s[k..]);
      assert FullMatch(Star(AnyChar), s[..k]) && FullMatch(slash, s[k..]);
    }
  }

  /** A one-character expression in front. */
  lemma CharFirst(a: Regex, b: Regex, s: string)
    requires a.NotSlash? || a.Literal?
    ensures FullMatch(Cat(a, b), s) <==> s != "" && FullMatch(a, s[..1]) && FullMatch(b, s[1..])
  {
  }

  lemma {:induction false} TranslationMeans(glob: string, s: string)
    ensures FullMatch(Translate(glob), s) <==> Accepts(glob, s)
    decreases |glob|
  {
    if glob == "" {
    } else if "**/" <= glob {
      var rest := glob[3..];
      forall k | 0 <= k <= |s|
        ensures FullMatch(Maybe(FOLDERS), s[..k]) <==> k == 0 || (OneLine(s[..k]) && s[k - 1] == '/')
      {
        FoldersMatch(s[..k]);
      }
      forall k | 0 <= k <= |s| ensures FullMatch(Translate(rest), s[k..]) <==> Accepts(rest, s[k..]) {
        TranslationMeans(rest, s[k..]);
      }
      assert s[0..] == s;
      assert Accepts(rest, s) ==> FullMatch(Maybe(FOLDERS), s[..0]) && FullMatch(Translate(rest), s[0..]);
    } else if "**" <= glob {
      forall k | 0 <= k <= |s| ensures FullMatch(Star(AnyChar), s[..k]) <==> OneLine(s[..k]) { StarOfAnyChar(s[..k]); }
      forall k | 0 <= k <= |s| ensures FullMatch(Translate(glob[2..]), s[k..]) <==> Accepts(glob[2..], s[k..]) {
        TranslationMeans(glob[2..], s[k..]);
      }
    } else if glob[0] == '*' {
      forall k | 0 <= k <= |s| ensures FullMatch(Star(NotSlash), s[..k]) <==> '/' !in s[..k] { StarOfNotSlash(s[..k]); }
      forall k | 0 <= k <= |s| ensures FullMatch(Translate(glob[1..]), s[k..]) <==> Accepts(glob[1..], s[k..]) {
        TranslationMeans(glob[1..], s[k..]);
      }
    } else {
      CharFirst(if glob[0] == '?' then NotSlash else Literal(glob[0]), Translate(glob[1..]), s);
      if s != "" {
        TranslationMeans(glob[1..], s[1..]);
        assert s[..1] == [s[0]];
      }
    }
  }

  /** `match_glob`: a path matches exactly if the glob accepts it, stripped of the slashes at its ends. */
  method MatchGlob(path: string, glob: string) returns (matched: bool)
    ensures matched <==> Accepts(glob, Strip(path))
  {
    var pattern := CompileGlob(glob);
    PatternParses(glob);
    TranslationMeans(glob, Strip(path));
    matched := FullMatch(ParseItems(pattern).regex, Strip(path));
  }

  // --- What follows for globs ---

  /** `**` accepts exactly the paths without line breaks. */
  lemma DoubleStarAccepts(s: string)
    ensures Accepts("**", s) <==> OneLine(s)
  {
    assert "**"[2..] == "" && s[..|s|] == s;
    if OneLine(s) {
      assert OneLine(s[..|s|]) && Accepts("", s[|s|..]);
    }
  }

  predicate IsPlain(glob: string) {
    '*' !in glob && '?' !in glob
  }

  /** A glob without wildcards is a path: it accepts that path alone. */
  lemma {:induction false} PlainGlob(glob: string, path: string)
    requires IsPlain(glob)
    ensures Accepts(glob, path) <==> path == glob
    decreases |glob|
  {
    if glob != "" {
      assert glob[0] in glob && glob == [glob[0]] + glob[1..];
      if path != "" {
        assert path == [path[0]] + path[1..];
        PlainGlob(glob[1..], path[1..]);
      }
    }
  }

  /** In front of a slash, `**` takes any folders, also none. */
  lemma AnyFolders(glob: string, folders: string, path: string)
    requires Accepts(glob, path) && OneLine(folders) && (folders == "" || folders[|folders| - 1] == '/')
    ensures Accepts("**/" + glob, folders + path)
  {
    assert ("**/" + glob)[..3] == "**/" && ("**/" + glob)[3..] == glob;
    var whole, k := folders + path, |folders|;
    assert whole[..k] == folders && whole[k..] == path;
    if k == 0 {
      assert whole == path;
    }
  }

  function Slashes(s: string): nat {
    if s == "" then 0 else (if s[0] == '/' then 1 else 0) + Slashes(s[1..])
  }

  lemma {:induction false} SlashesSplit(s: string, k: nat)
    requires k <= |s| && '/' !in s[..k]
    ensures Slashes(s) == Slashes(s[k..])
    decreases k
  {
    if k == 0 {
      assert s[0..] == s;
    } else {
      assert s[0] == s[..k][0] && s[1..][..k - 1] == s[..k][1..] && s[1..][k - 1..] == s[k..];
      SlashesSplit(s[1..], k - 1);
    }
  }

  predicate HasDoubleStar(glob: string) {
    |glob| > 1 && ((glob[0] == '*' && glob[1] == '*') || HasDoubleStar(glob[1..]))
  }

  /** Without `**`, a glob only accepts paths of its own depth: neither `*` nor `?` crosses folders. */
  lemma {:induction false} SameDepth(glob: string, s: string)
    requires !HasDoubleStar(glob) && Accepts(glob, s)
    ensures Slashes(s) == Slashes(glob)
    decreases |glob|
  {
    if glob != "" {
      if glob[0] == '*' {
        var k :| 0 <= k <= |s| && '/' !in s[..k] && Accepts(glob[1..], s[k..]);
        SlashesSplit(s, k);
        SameDepth(glob[1..], s[k..]);
      } else {
        SameDepth(glob[1..], s[1..]);
      }
    }
  }

  /** Why rules may not start with a slash: such a glob would match nothing. */
  lemma LeadingSlashMatchesNothing(glob: string, path: string)
    requires glob != "" && glob[0] == '/'
    ensures !Accepts(glob, Strip(path))
  {
  }

  // --- File menu rules ---

  datatype Kind = File | Folder

  datatype Operation = Create | Rename | Delete | Revert | Diff | Download | OpenSource

  datatype FileMenuRule = FileMenuRule(glob: string, kind: Option<Kind>, ops: set<Operation>, opsIfNew: set<Operation>)

  const DEFAULT_FILE_MENU := [
    FileMenuRule("**", Some(Folder), {Create, Rename, Delete}, {}),
    FileMenuRule("**", Some(File), {OpenSource, Download, Diff, Revert, Rename, Delete}, {})
  ]

  predicate Applies(rule: FileMenuRule, path: string, kind: Kind) {
    (rule.kind == None || rule.kind == Some(kind)) && Accepts(rule.glob, Strip(path))
  }

  function Offered(rule: FileMenuRule, isNew: bool): set<Operation> {
    if isNew then rule.ops + rule.opsIfNew else rule.ops
  }

  /** The loop of `allowed_operations`. */
  method LastRule(rules: seq<FileMenuRule>, path: string, kind: Kind)
    returns (rule: Option<FileMenuRule>, ghost last: nat)
    ensures rule == None ==> forall j :: 0 <= j < |rules| ==> !Applies(rules[j], path, kind)
    ensures rule.Some? ==> last < |rules| && rules[last] == rule.value && Applies(rules[last], path, kind) &&
                           forall j :: last < j < |rules| ==> !Applies(rules[j], path, kind)
  {
    rule, last := None, 0;
    for i := 0 to |rules|
      invariant rule == None ==> forall j :: 0 <= j < i ==> !Applies(rules[j], path, kind)
      invariant rule.Some? ==> 0 <= last < i && rules[last] == rule.value && Applies(rules[last], path, kind) &&
                               forall j :: last < j < i ==> !Applies(rules[j], path, kind)
    {
      if rules[i].kind == None || rules[i].kind == Some(kind) {
        var matched := MatchGlob(path, rules[i].glob);
        if matched {
          rule := Some(rules[i]);
          last := i;
        }
      }
    }
  }

  /** Some default rule applies to every path without a line break, and to no other. */
  lemma DefaultRuleApplies(fileMenu: seq<FileMenuRule>, path: string, kind: Kind)
    ensures (forall j :: 0 <= j < |DEFAULT_FILE_MENU + fileMenu| ==>
               !Applies((DEFAULT_FILE_MENU + fileMenu)[j], path, kind)) <==>
              !OneLine(Strip(path)) && forall r :: r in fileMenu ==> !Applies(r, path, kind)
  {
    var rules := DEFAULT_FILE_MENU + fileMenu;
    DoubleStarAccepts(Strip(path));
    assert forall j :: 0 <= j < |fileMenu| ==> fileMenu[j] == rules[j + 2];
    assert Applies(rules[0], path, kind) || Applies(rules[1], path, kind) <==> OneLine(Strip(path));
    assert forall j :: 2 <= j < |rules| ==> rules[j] in fileMenu;
    assert forall r :: r in fileMenu ==> r in rules;
  }

  /**
    `allowed_operations`: what the last applicable rule offers. None stands for the AttributeError on
    `None.ops`: no rule applies, which takes a path with a line break that no rule of the type's own matches.
   */
  method AllowedOperations(fileMenu: seq<FileMenuRule>, path: string, kind: Kind, isNew: bool)
    returns (operations: Option<set<Operation>>)
    ensures operations == None <==> !OneLine(Strip(path)) && forall r :: r in fileMenu ==> !Applies(r, path, kind)
    ensures operations.Some? ==>
              var rules := DEFAULT_FILE_MENU + fileMenu;
              exists k :: 0 <= k < |rules| && Applies(rules[k], path, kind) &&
                  operations.value == rules[k].ops + (if isNew then rules[k].opsIfNew else {}) &&
                  forall j :: k < j < |rules| ==> !Applies(rules[j], path, kind)
  {
    ghost var last;
    var rule;
    rule, last := LastRule(DEFAULT_FILE_MENU + fileMenu, path, kind);
    DefaultRuleApplies(fileMenu, path, kind);
    operations := if rule.Some? then Some(Offered(rule.value, isNew)) else None;
  }

  /** What a file or folder without a rule of its own offers, new or not: a rule only applies to its own kind. */
  lemma DefaultOperations(path: string, kind: Kind, isNew: bool)
    requires OneLine(Strip(path))
    ensures exists k :: 0 <= k < |DEFAULT_FILE_MENU| &&
                        (forall j :: 0 <= j < |DEFAULT_FILE_MENU| ==>
                           (Applies(DEFAULT_FILE_MENU[j], path, kind) <==> j == k)) &&
                        Offered(DEFAULT_FILE_MENU[k], isNew) ==
                        if kind == Folder then {Create, Rename, Delete}
                        else {OpenSource, Download, Diff, Revert, Rename, Delete}
  {
    DoubleStarAccepts(Strip(path));
    assert Applies(DEFAULT_FILE_MENU[0], path, kind) <==> kind == Folder;
    assert Applies(DEFAULT_FILE_MENU[1], path, kind) <==> kind == File;
    if kind == Folder {
      assert Offered(DEFAULT_FILE_MENU[0], isNew) == {Create, Rename, Delete};
    } else {
      assert Offered(DEFAULT_FILE_MENU[1], isNew) == {OpenSource, Download, Diff, Revert, Rename, Delete};
    }
  }

  /** Such a path, for a type without rules of its own. */
  lemma LineBreakHasNoRule(kind: Kind)
    ensures forall rule :: rule in DEFAULT_FILE_MENU ==> !Applies(rule, "a\nb", kind)
  {
    var path := "a\nb";
    assert Strip(path) == path && path[1] == '\n';
    DoubleStarAccepts(path);
  }
}
