/**
 Names a receiver gives to files on disk: an untrusted name reduced to one path
 component, the partial file of a transfer, and a destination that is still free.
 */
module FileNames {
  import opened Bytes

  predicate Separator(c: char) { c == '/' || c == '\\' }

  predicate Reserved(c: char) {
    c == '<' || c == '>' || c == ':' || c == '"' || c == '|' || c == '?' || c == '*' || c < ' '
  }

  predicate Trimmed(c: char) { c == ' ' || c == '.' }

  /** What follows the last separator. */
  function Base(name: string): string {
    if name == "" then ""
    else if Separator(name[|name| - 1]) then ""
    else Base(name[..|name| - 1]) + [name[|name| - 1]]
  }

  function Cleaned(s: string): (r: string)
    ensures |r| == |s|
  {
    if s == "" then "" else [if Reserved(s[0]) then '_' else s[0]] + Cleaned(s[1..])
  }

  function TrimStart(s: string): string {
    if s != "" && Trimmed(s[0]) then TrimStart(s[1..]) else s
  }

  function TrimEnd(s: string): string {
    if s != "" && Trimmed(s[|s| - 1]) then TrimEnd(s[..|s| - 1]) else s
  }

  function Sanitize(name: string): string {
    var trimmed := TrimEnd(TrimStart(Cleaned(Base(name))));
    if trimmed == "" || trimmed == "." || trimmed == ".." then "unnamed-file" else trimmed
  }

  predicate Plain(s: string) {
    forall i :: 0 <= i < |s| ==> !Separator(s[i]) && !Reserved(s[i])
  }

  /** One path component that neither starts nor ends in a dot or a space. */
  predicate Safe(s: string) {
    s != "" && Plain(s) && !Trimmed(s[0]) && !Trimmed(s[|s| - 1])
  }

  lemma {:induction false} BaseHasNoSeparator(name: string)
    ensures forall i :: 0 <= i < |Base(name)| ==> !Separator(Base(name)[i])
    ensures (forall i :: 0 <= i < |name| ==> !Separator(name[i])) ==> Base(name) == name
  {
    if name != "" {
      BaseHasNoSeparator(name[..|name| - 1]);
      assert name == name[..|name| - 1] + [name[|name| - 1]];
    }
  }

  lemma {:induction false} CleanedIsPlain(s: string)
    requires forall i :: 0 <= i < |s| ==> !Separator(s[i])
    ensures Plain(Cleaned(s)) && (Plain(s) ==> Cleaned(s) == s)
  {
    if s != "" {
      CleanedIsPlain(s[1..]);
      var r, rest := Cleaned(s), Cleaned(s[1..]);
      assert forall i :: 1 <= i < |r| ==> r[i] == rest[i - 1];
      if Plain(s) {
        assert !Reserved(s[0]);
        assert s == [s[0]] + s[1..];
      }
    }
  }

  lemma {:induction false} TrimStartKeeps(s: string)
    requires Plain(s)
    ensures Plain(TrimStart(s)) && (TrimStart(s) == "" || !Trimmed(TrimStart(s)[0]))
  {
    if s != "" && Trimmed(s[0]) {
      TrimStartKeeps(s[1..]);
    }
  }

  lemma {:induction false} TrimEndKeeps(s: string)
    requires Plain(s)
    ensures Plain(TrimEnd(s)) && (TrimEnd(s) == "" || !Trimmed(TrimEnd(s)[|TrimEnd(s)| - 1]))
    ensures TrimEnd(s) == "" || (s != "" && TrimEnd(s)[0] == s[0])
  {
    if s != "" && Trimmed(s[|s| - 1]) {
      TrimEndKeeps(s[..|s| - 1]);
    }
  }

  lemma SanitizedIsSafe(name: string)
    ensures Safe(Sanitize(name))
  {
    hide Base, Cleaned, TrimStart, TrimEnd;
    var base := Base(name);
    BaseHasNoSeparator(name);
    CleanedIsPlain(base);
    TrimStartKeeps(Cleaned(base));
    TrimEndKeeps(TrimStart(Cleaned(base)));
    PlaceholderIsSafe();
  }

  lemma PlaceholderIsSafe()
    ensures Safe("unnamed-file")
  {
  }

  /** Sanitizing leaves exactly the safe names alone; so it is idempotent. */
  lemma FixedIffSafe(name: string)
    ensures Sanitize(name) == name <==> Safe(name)
  {
    SanitizedIsSafe(name);
    hide Base, Cleaned;
    if Safe(name) {
      BaseHasNoSeparator(name);
      CleanedIsPlain(name);
    }
  }

  lemma SanitizeIsIdempotent(name: string)
    ensures Sanitize(Sanitize(name)) == Sanitize(name)
  {
    SanitizedIsSafe(name);
    FixedIffSafe(Sanitize(name));
  }

  /** Base is what follows the last separator. */
  lemma {:induction false} BaseIs(name: string) returns (dir: string)
    ensures name == dir + Base(name) && (dir == "" || Separator(dir[|dir| - 1]))
    ensures forall k :: 0 <= k < |Base(name)| ==> !Separator(Base(name)[k])
  {
    if name == "" {
      dir := "";
    } else if Separator(name[|name| - 1]) {
      dir := name;
    } else {
      dir := BaseIs(name[..|name| - 1]);
      assert name == name[..|name| - 1] + [name[|name| - 1]];
    }
  }

  lemma {:induction false} CleanedAt(s: string, k: nat)
    requires k < |s|
    ensures Cleaned(s)[k] == if Reserved(s[k]) then '_' else s[k]
  {
    if k > 0 {
      CleanedAt(s[1..], k - 1);
    }
  }

  lemma {:induction false} TrimStartIs(s: string) returns (i: nat)
    ensures i <= |s| && TrimStart(s) == s[i..] && (forall k :: 0 <= k < i ==> Trimmed(s[k]))
    ensures i < |s| ==> !Trimmed(s[i])
  {
    if s != "" && Trimmed(s[0]) {
      i := TrimStartIs(s[1..]);
      assert s[1..][i..] == s[i + 1..];
      assert forall k :: 1 <= k < i + 1 ==> s[k] == s[1..][k - 1];
      i := i + 1;
    } else {
      i := 0;
    }
  }

  lemma {:induction false} TrimEndIs(s: string) returns (j: nat)
    ensures j <= |s| && TrimEnd(s) == s[..j] && (forall k :: j <= k < |s| ==> Trimmed(s[k]))
    ensures j > 0 ==> !Trimmed(s[j - 1])
  {
    if s != "" && Trimmed(s[|s| - 1]) {
      j := TrimEndIs(s[..|s| - 1]);
    } else {
      j := |s|;
    }
  }

  /** A sanitized name is the last component without the dots and spaces at its ends,
      each reserved character replaced; when nothing is left, it is the placeholder. */
  lemma SanitizedIs(name: string) returns (dir: string, base: string, i: nat, j: nat)
    ensures name == dir + base && (dir == "" || Separator(dir[|dir| - 1]))
    ensures forall k :: 0 <= k < |base| ==> !Separator(base[k])
    ensures i <= j <= |base| && (forall k :: 0 <= k < i || j <= k < |base| ==> Trimmed(base[k]))
    ensures i < j ==> !Trimmed(base[i]) && !Trimmed(base[j - 1])
    ensures if i == j then Sanitize(name) == "unnamed-file"
            else |Sanitize(name)| == j - i
                 && forall k :: i <= k < j ==> Sanitize(name)[k - i] == if Reserved(base[k]) then '_' else base[k]
  {
    hide Base, Cleaned, TrimStart, TrimEnd;
    dir := BaseIs(name);
    base := Base(name);
    var s := Cleaned(base);
    forall k | 0 <= k < |base|
      ensures s[k] == (if Reserved(base[k]) then '_' else base[k]) && (Trimmed(s[k]) <==> Trimmed(base[k]))
    {
      CleanedAt(base, k);
    }
    i := TrimStartIs(s);
    var rest := TrimEndIs(s[i..]);
    j := i + rest;
    assert TrimEnd(TrimStart(s)) == s[i..j];
    assert forall k :: j <= k < |s| ==> s[k] == s[i..][k - i];
  }

  // ------------------------------------------------------------------ partial files

  predicate IdChar(c: char) {
    'a' <= c <= 'z' || 'A' <= c <= 'Z' || '0' <= c <= '9' || c == '-'
  }

  function IdChars(id: string): string {
    if id == "" then "" else (if IdChar(id[0]) then [id[0]] else "") + IdChars(id[1..])
  }

  /** The desktop viewer's partial file: at most 64 characters of the id. */
  function PartName(id: string): string {
    var kept := IdChars(id);
    "." + (if |kept| <= 64 then kept else kept[..64]) + ".part"
  }

  predicate SaneId(id: string) {
    id != "" && |id| <= 64 && forall i :: 0 <= i < |id| ==> IdChar(id[i])
  }

  lemma {:induction false} IdCharsOfSane(id: string)
    requires forall i :: 0 <= i < |id| ==> IdChar(id[i])
    ensures IdChars(id) == id
  {
    if id != "" {
      IdCharsOfSane(id[1..]);
      assert id == [id[0]] + id[1..];
    }
  }

  /** The host, which refuses other ids, names its partial file the same way. */
  lemma SanePartName(id: string)
    requires SaneId(id)
    ensures PartName(id) == "." + id + ".part"
  {
    IdCharsOfSane(id);
  }

  // ------------------------------------------------------------- a free destination

  function Digit(d: nat): char
    requires d < 10
  {
    "0123456789"[d]
  }

  function Decimal(n: nat): (s: string)
    ensures s != ""
  {
    if n < 10 then [Digit(n)] else Decimal(n / 10) + [Digit(n % 10)]
  }

  /** Where the last dot is; |name| when there is none. */
  function LastDot(name: string, before: nat): (i: nat)
    requires before <= |name|
    ensures i == |name| || (i < before && name[i] == '.')
  {
    if before == 0 then |name| else if name[before - 1] == '.' then before - 1 else LastDot(name, before - 1)
  }

  /** Where the extension begins; a name that starts with its only dot has none. */
  function Cut(name: string): (i: nat)
    ensures i <= |name| && (name != "" ==> i > 0)
  {
    var dot := LastDot(name, |name|);
    if dot == 0 then |name| else dot
  }

  function Numbered(name: string, i: nat): string {
    name[..Cut(name)] + " (" + Decimal(i) + ")" + name[Cut(name)..]
  }

  const LAST_NUMBER := 9_999

  /** The first free name of `name`, `stem (i).ext`, …; when none of the ten
      thousand is, the one numbered by the clock. */
  function FreeName(taken: set<string>, name: string, unix: nat): string {
    if name !in taken then name else FreeFrom(taken, name, 1, unix)
  }

  function FreeFrom(taken: set<string>, name: string, i: nat, unix: nat): string
    decreases LAST_NUMBER + 1 - i
  {
    if i > LAST_NUMBER then Numbered(name, unix)
    else if Numbered(name, i) !in taken then Numbered(name, i)
    else FreeFrom(taken, name, i + 1, unix)
  }

  method UniqueDestination(taken: set<string>, name: string, unix: nat) returns (dest: string)
    ensures dest == FreeName(taken, name, unix)
  {
    if name !in taken {
      return name;
    }
    var i := 1;
    while i <= LAST_NUMBER
      invariant 1 <= i <= LAST_NUMBER + 1 && FreeFrom(taken, name, i, unix) == FreeFrom(taken, name, 1, unix)
    {
      var c := Numbered(name, i);
      if c !in taken {
        return c;
      }
      i := i + 1;
    }
    dest := Numbered(name, unix);
  }

  /** Every name it would offer is taken. */
  predicate AllTaken(taken: set<string>, name: string, unix: nat) {
    name in taken && Numbered(name, unix) in taken
    && forall i :: 1 <= i <= LAST_NUMBER ==> Numbered(name, i) in taken
  }

  /** The ten thousand names it tries, and the clock's. */
  function Tried(name: string, unix: nat): set<string> {
    {name, Numbered(name, unix)} + set i | 1 <= i <= LAST_NUMBER :: Numbered(name, i)
  }

  /** In a directory that holds just these files, every name is taken. */
  lemma CrowdedDirectory(name: string, unix: nat)
    ensures AllTaken(Tried(name, unix), name, unix)
    ensures FreeName(Tried(name, unix), name, unix) == Numbered(name, unix)
  {
    hide Numbered;
    FreeFromIs(Tried(name, unix), name, 1, unix);
    assert AllTaken(Tried(name, unix), name, unix);
    AllTriedFirst(Tried(name, unix), name, 1, unix);
  }

  lemma {:induction false} AllTriedFirst(taken: set<string>, name: string, i: nat, unix: nat)
    requires 1 <= i <= LAST_NUMBER + 1 && AllTaken(taken, name, unix)
    ensures FreeFrom(taken, name, i, unix) == Numbered(name, unix)
    decreases LAST_NUMBER + 1 - i
  {
    hide Numbered;
    if i <= LAST_NUMBER {
      AllTriedFirst(taken, name, i + 1, unix);
    }
  }

  lemma {:induction false} FreeFromIs(taken: set<string>, name: string, i: nat, unix: nat)
    requires 1 <= i <= LAST_NUMBER + 1
    ensures var dest := FreeFrom(taken, name, i, unix);
            && (dest == Numbered(name, unix) || exists k :: i <= k <= LAST_NUMBER && dest == Numbered(name, k))
            && (dest in taken <==> Numbered(name, unix) in taken
                                   && forall k :: i <= k <= LAST_NUMBER ==> Numbered(name, k) in taken)
    decreases LAST_NUMBER + 1 - i
  {
    hide Numbered;
    if i <= LAST_NUMBER {
      FreeFromIs(taken, name, i + 1, unix);
    }
  }

  /** It clobbers a file exactly when no name was left. */
  lemma ClobbersIffAllTaken(taken: set<string>, name: string, unix: nat)
    ensures FreeName(taken, name, unix) in taken <==> AllTaken(taken, name, unix)
  {
    hide Numbered;
    FreeFromIs(taken, name, 1, unix);
  }

  /** A destination stays one component, and is never a partial file. */
  lemma DestinationIsVisible(taken: set<string>, name: string, unix: nat, id: string)
    requires Safe(name)
    ensures var dest := FreeName(taken, name, unix);
            Plain(dest) && dest != "" && dest[0] == name[0] && dest != PartName(id)
  {
    hide Decimal, FreeFrom;
    FreeFromIs(taken, name, 1, unix);
    forall i: nat
      ensures Plain(Numbered(name, i)) && Numbered(name, i) != "" && Numbered(name, i)[0] == name[0]
    {
      NumberedIsPlain(name, i);
    }
    assert PartName(id)[0] == '.';
  }

  lemma {:induction false} DecimalIsPlain(n: nat)
    ensures Plain(Decimal(n))
  {
    if n >= 10 {
      DecimalIsPlain(n / 10);
    }
  }

  lemma NumberedIsPlain(name: string, i: nat)
    requires Safe(name)
    ensures Plain(Numbered(name, i)) && Numbered(name, i) != "" && Numbered(name, i)[0] == name[0]
  {
    DecimalIsPlain(i);
    hide Decimal;
    var c := Cut(name);
    PlainJoins(name[..c], " (");
    PlainJoins(name[..c] + " (", Decimal(i));
    PlainJoins(name[..c] + " (" + Decimal(i), ")");
    PlainJoins(name[..c] + " (" + Decimal(i) + ")", name[c..]);
  }

  lemma PlainJoins(a: string, b: string)
    requires Plain(a) && Plain(b)
    ensures Plain(a + b)
  {
  }

  // ---------------------------------------------------------- what a numbered name says

  /** The number that decimal digits write. */
  function Value(s: string): nat {
    if s == "" then 0
    else 10 * Value(s[..|s| - 1]) + if '0' <= s[|s| - 1] <= '9' then (s[|s| - 1] - '0') as nat else 0
  }

  lemma DigitIs(d: nat)
    requires d < 10
    ensures '0' <= Digit(d) <= '9' && (Digit(d) - '0') as nat == d
  {
  }

  lemma {:induction false} DecimalIsValue(n: nat)
    ensures Value(Decimal(n)) == n && (n > 0 ==> Decimal(n)[0] != '0')
    ensures forall i :: 0 <= i < |Decimal(n)| ==> '0' <= Decimal(n)[i] <= '9'
  {
    DigitIs(n % 10);
    if n < 10 {
      assert Decimal(n)[..0] == "" && Value("") == 0;
    } else {
      DecimalIsValue(n / 10);
      assert Decimal(n)[..|Decimal(n)| - 1] == Decimal(n / 10);
    }
  }

  lemma {:induction false} LastDotIs(name: string, before: nat)
    requires before <= |name|
    ensures var i := LastDot(name, before);
            if i == |name| then forall k :: 0 <= k < before ==> name[k] != '.'
            else i < before && name[i] == '.' && forall k :: i < k < before ==> name[k] != '.'
  {
    if before > 0 && name[before - 1] != '.' {
      LastDotIs(name, before - 1);
    }
  }

  /** The number goes in parentheses before the extension: what follows the last dot,
      unless that is the name's first character. */
  lemma NumberedIs(stem: string, ext: string, i: nat)
    requires stem != "" && stem[0] != '.' && (ext == "" || ext[0] == '.')
    requires forall k :: 1 <= k < |ext| ==> ext[k] != '.'
    requires ext == "" ==> forall k :: 0 <= k < |stem| ==> stem[k] != '.'
    ensures Numbered(stem + ext, i) == stem + " (" + Decimal(i) + ")" + ext
    ensures Value(Decimal(i)) == i
  {
    hide Decimal;
    var name := stem + ext;
    LastDotIs(name, |name|);
    DecimalIsValue(i);
    var dot := LastDot(name, |name|);
    if ext != "" {
      assert name[|stem|] == '.';
      assert forall k :: |stem| < k < |name| ==> name[k] == ext[k - |stem|];
      assert dot == |stem|;
    } else {
      assert name == stem && dot == |name|;
    }
    assert name[..|stem|] == stem && name[|stem|..] == ext;
  }

  /** Different numbers give different names. */
  lemma NumbersDiffer(name: string, i: nat, k: nat)
    requires Numbered(name, i) == Numbered(name, k)
    ensures i == k
  {
    hide Decimal, Cut;
    DecimalIsValue(i);
    DecimalIsValue(k);
    var c := Cut(name);
    SameMiddle(name[..c] + " (", Decimal(i), Decimal(k), ")" + name[c..]);
    assert Numbered(name, i) == name[..c] + " (" + Decimal(i) + (")" + name[c..]);
    assert Numbered(name, k) == name[..c] + " (" + Decimal(k) + (")" + name[c..]);
  }

  lemma SameMiddle(a: string, b: string, c: string, d: string)
    ensures a + b + d == a + c + d ==> b == c
  {
    if a + b + d == a + c + d {
      assert |b| == |c|;
      assert (a + b + d)[|a|..|a| + |b|] == b && (a + c + d)[|a|..|a| + |c|] == c;
    }
  }

  /** The destination is the name itself if that is free, else the first free of the
      numbered ones, else the one numbered by the clock. */
  lemma FreeNameIs(taken: set<string>, name: string, unix: nat) returns (i: nat)
    ensures i <= 10_000 && (forall k :: 0 <= k < i ==> Candidate(name, k) in taken)
    ensures if i < 10_000 then FreeName(taken, name, unix) == Candidate(name, i) && Candidate(name, i) !in taken
            else FreeName(taken, name, unix) == Numbered(name, unix)
  {
    hide Numbered;
    if name !in taken {
      i := 0;
    } else {
      i := FirstFreeFrom(taken, name, 1, unix);
    }
  }

  function Candidate(name: string, k: nat): string {
    if k == 0 then name else Numbered(name, k)
  }

  lemma {:induction false} FirstFreeFrom(taken: set<string>, name: string, from: nat, unix: nat) returns (i: nat)
    requires 1 <= from <= 10_000 && forall k :: 0 <= k < from ==> Candidate(name, k) in taken
    ensures from <= i <= 10_000 && forall k :: 0 <= k < i ==> Candidate(name, k) in taken
    ensures if i < 10_000 then FreeFrom(taken, name, from, unix) == Candidate(name, i) && Candidate(name, i) !in taken
            else FreeFrom(taken, name, from, unix) == Numbered(name, unix)
    decreases 10_000 - from
  {
    hide Numbered;
    if from == 10_000 || Numbered(name, from) !in taken {
      i := from;
    } else {
      i := FirstFreeFrom(taken, name, from + 1, unix);
    }
  }

  // -------------------------------------------------------------- what a part name says

  predicate AsciiAlnumOrDash(c: char) {
    '0' <= c <= '9' || 'A' <= c <= 'Z' || 'a' <= c <= 'z' || c == '-'
  }

  /** What an id keeps: letters, digits and dashes, one after the other. */
  lemma {:induction false} IdCharsJoin(a: string, b: string)
    ensures IdChars(a + b) == IdChars(a) + IdChars(b)
    decreases |a|
  {
    if a == "" {
      assert a + b == b;
    } else {
      IdCharsJoin(a[1..], b);
      assert (a + b)[1..] == a[1..] + b;
      Regroup(if IdChar(a[0]) then [a[0]] else "", IdChars(a[1..]), IdChars(b));
    }
  }

  lemma IdCharsOne(c: char)
    ensures IdChars([c]) == if AsciiAlnumOrDash(c) then [c] else ""
  {
    assert [c][1..] == "";
  }

  /** A partial file is named by the first 64 of these, between a dot and ".part". */
  lemma PartNameIs(id: string)
    ensures var kept, name := IdChars(id), PartName(id);
            var n := if |kept| <= 64 then |kept| else 64;
            |name| == n + 6 && name[..1] == "." && name[1..n + 1] == kept[..n] && name[n + 1..] == ".part"
  {
    hide IdChars;
  }
}
