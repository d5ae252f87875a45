/**
 The configuration file: the saver's print loop and the parser that reads it back.

 A position is counted from the start of the text still to be read; what is behind it no
 longer matters to the parser.
 */
module ConfigFile {
  import opened Options

  type Entry = (string, string)

  predicate Endline(ch: char) { ch == '\r' || ch == '\n' }

  predicate SpaceTab(ch: char) { ch == ' ' || ch == '\t' }

  predicate Whitespace(ch: char) { SpaceTab(ch) || Endline(ch) }

  /** What a find looks for. */
  datatype Kind = Hash | EqualSign | LineEnd | Visible | NotBlank

  predicate Is(kind: Kind, ch: char) {
    match kind
    case Hash => ch == '#'
    case EqualSign => ch == '='
    case LineEnd => Endline(ch)
    case Visible => !Whitespace(ch)
    case NotBlank => !SpaceTab(ch)
  }

  // ---- Finds ---------------------------------------------------------------------------------

  function FindIf(t: string, i: nat, j: nat, kind: Kind): (r: nat)
    requires i <= j <= |t|
    ensures i <= r <= j && (forall k :: i <= k < r ==> !Is(kind, t[k])) && (r < j ==> Is(kind, t[r]))
    decreases j - i
  {
    if i == j || Is(kind, t[i]) then i else FindIf(t, i + 1, j, kind)
  }

  /** The end of the last character in `i .. j` that meets `p`: a find over reverse iterators. */
  function AfterLast(t: string, i: nat, j: nat, kind: Kind): (r: nat)
    requires i <= j <= |t|
    ensures i <= r <= j && (forall k :: r <= k < j ==> !Is(kind, t[k])) && (i < r ==> Is(kind, t[r - 1]))
    decreases j - i
  {
    if i == j || Is(kind, t[j - 1]) then j else AfterLast(t, i, j - 1, kind)
  }

  lemma FindIs(t: string, i: nat, j: nat, kind: Kind, k: nat)
    requires i <= k <= j <= |t| && (forall q :: i <= q < k ==> !Is(kind, t[q])) && (k < j ==> Is(kind, t[k]))
    ensures FindIf(t, i, j, kind) == k
  {
  }

  // ---- Comments and lists --------------------------------------------------------------------

  /** The text of `i .. j` without its comments, each of which runs to the end of its line. */
  function Uncommented(t: string, i: nat, j: nat): string
    requires i <= j <= |t|
    decreases j - i
  {
    if i == j then ""
    else
      var comment := FindIf(t, i, j, Hash);
      t[i..comment] + Uncommented(t, FindIf(t, comment, j, LineEnd), j)
  }

  predicate NoneOf(t: string, kind: Kind) {
    forall i :: 0 <= i < |t| ==> !Is(kind, t[i])
  }

  lemma {:induction false} UncommentedHasNone(t: string, i: nat, j: nat)
    requires i <= j <= |t|
    ensures NoneOf(Uncommented(t, i, j), Hash) && |Uncommented(t, i, j)| <= j - i
    decreases j - i
  {
    if i != j {
      UncommentedHasNone(t, FindIf(t, FindIf(t, i, j, Hash), j, LineEnd), j);
    }
  }

  lemma UncommentedSame(t: string, i: nat, j: nat)
    requires i <= j <= |t| && forall k :: i <= k < j ==> !Is(Hash, t[k])
    ensures Uncommented(t, i, j) == t[i..j]
  {
    FindIs(t, i, j, Hash, j);
  }

  lemma UncommentedStep(t: string, i: nat, j: nat, done: string)
    requires i < j <= |t|
    ensures var comment := FindIf(t, i, j, Hash);
      var endl := FindIf(t, comment, j, LineEnd);
      done + Uncommented(t, i, j) == done + t[i..comment] + Uncommented(t, endl, j) && i < endl
  {
    hide FindIf;
    var comment := FindIf(t, i, j, Hash);
    var rest := Uncommented(t, FindIf(t, comment, j, LineEnd), j);
    assert Uncommented(t, i, j) == t[i..comment] + rest;
    assert done + t[i..comment] + rest == done + (t[i..comment] + rest);
  }

  /** Position `q` is in a comment: behind a `#`, itself included, and before the end of that line. */
  ghost predicate InComment(t: string, i: nat, q: nat)
    requires q < |t|
  {
    exists h :: i <= h <= q && Is(Hash, t[h]) && forall k :: h <= k <= q ==> !Is(LineEnd, t[k])
  }

  /** `at` lists, in order, the positions of `i .. j` that are in no comment, and `s` is their characters. */
  ghost predicate Picks(t: string, i: nat, j: nat, s: string, at: seq<nat>) {
    && i <= j <= |t| && |s| == |at|
    && (forall m :: 0 <= m < |at| ==> i <= at[m] < j && s[m] == t[at[m]])
    && (forall m, n :: 0 <= m < n < |at| ==> at[m] < at[n])
    && (forall q: nat :: i <= q < j ==> (q in at <==> !InComment(t, i, q)))
  }

  lemma CommentsApart(t: string, i: nat, j: nat, c: nat, l: nat, q: nat)
    requires i <= c <= l <= j <= |t| && i <= q < j
    requires (forall k :: i <= k < c ==> !Is(Hash, t[k])) && (c < j ==> Is(Hash, t[c]))
    requires (forall k :: c <= k < l ==> !Is(LineEnd, t[k])) && (l < j ==> Is(LineEnd, t[l]))
    ensures q < c ==> !InComment(t, i, q)
    ensures c <= q < l ==> InComment(t, i, q)
    ensures l <= q ==> (InComment(t, i, q) <==> InComment(t, l, q))
  {
    if l <= q && InComment(t, i, q) {
      var h :| i <= h <= q && Is(Hash, t[h]) && forall k :: h <= k <= q ==> !Is(LineEnd, t[k]);
      assert h > l;
    }
  }

  function Positions(i: nat, n: nat): (r: seq<nat>)
    ensures |r| == n && forall m :: 0 <= m < n ==> r[m] == i + m
  {
    seq(n, (m: nat) => i + m)
  }

  lemma InPositions(i: nat, n: nat, at: seq<nat>, q: nat)
    ensures q in Positions(i, n) + at <==> i <= q < i + n || q in at
  {
    if i <= q < i + n {
      assert (Positions(i, n) + at)[q - i] == q;
    }
  }

  lemma PicksOn(t: string, i: nat, j: nat, c: nat, l: nat, s: string, at: seq<nat>)
    requires i <= c <= l <= j <= |t| && Picks(t, l, j, s, at)
    requires (forall k :: i <= k < c ==> !Is(Hash, t[k])) && (c < j ==> Is(Hash, t[c]))
    requires (forall k :: c <= k < l ==> !Is(LineEnd, t[k])) && (l < j ==> Is(LineEnd, t[l]))
    ensures Picks(t, i, j, t[i..c] + s, Positions(i, c - i) + at)
  {
    hide InComment;
    var n, r, u := c - i, Positions(i, c - i) + at, t[i..c] + s;
    forall m | 0 <= m < |r|
      ensures i <= r[m] < j && u[m] == t[r[m]]
    {
      if m >= n {
        assert r[m] == at[m - n] && u[m] == s[m - n];
      }
    }
    forall m, k | 0 <= m < k < |r|
      ensures r[m] < r[k]
    {
      assert k >= n ==> r[k] == at[k - n];
      assert m >= n ==> r[m] == at[m - n];
    }
    forall q: nat | i <= q < j
      ensures q in r <==> !InComment(t, i, q)
    {
      CommentsApart(t, i, j, c, l, q);
      InPositions(i, n, at, q);
      assert forall m :: 0 <= m < |at| ==> at[m] >= l;
    }
  }

  /** What is left of a text are exactly the characters that are in no comment, in order. */
  lemma {:induction false} UncommentedIs(t: string, i: nat, j: nat) returns (at: seq<nat>)
    requires i <= j <= |t|
    ensures Picks(t, i, j, Uncommented(t, i, j), at)
    decreases j - i
  {
    if i == j {
      at := [];
    } else {
      var c := FindIf(t, i, j, Hash);
      var l := FindIf(t, c, j, LineEnd);
      var rest := UncommentedIs(t, l, j);
      PicksOn(t, i, j, c, l, Uncommented(t, l, j), rest);
      at := Positions(i, c - i) + rest;
    }
  }

  /** `to_string`. */
  method ToString(t: string, i: nat, j: nat) returns (result: string)
    requires i <= j <= |t|
    ensures result == Uncommented(t, i, j)
  {
    result := "";
    var pos := i;
    while pos != j
      invariant i <= pos <= j
      invariant result + Uncommented(t, pos, j) == Uncommented(t, i, j)
      decreases j - pos
    {
      var comment := FindIf(t, pos, j, Hash);
      var endl := FindIf(t, comment, j, LineEnd);
      UncommentedStep(t, pos, j, result);
      result := result + t[pos..comment];
      pos := endl;
    }
  }

  function Weight(ch: char): int {
    if ch == '[' then 1 else if ch == ']' then -1 else 0
  }

  /** Where the brackets open at `i`, `stack` of them, are closed; the end of the text if they are not. */
  function Skip(t: string, i: nat, stack: int): (r: nat)
    requires i <= |t|
    ensures i <= r <= |t|
    decreases |t| - i
  {
    if i == |t| || stack == 0 then i else Skip(t, i + 1, stack + Weight(t[i]))
  }

  /** `skip_list`. */
  method SkipList(t: string, begin: nat) returns (skipper: nat)
    requires begin <= |t|
    ensures skipper == Skip(t, begin, 1)
  {
    skipper := begin;
    var stack := 1;
    while skipper != |t| && stack != 0
      invariant begin <= skipper <= |t|
      invariant Skip(t, skipper, stack) == Skip(t, begin, 1)
      decreases |t| - skipper
    {
      if t[skipper] == '[' {
        stack := stack + 1;
      }
      if t[skipper] == ']' {
        stack := stack - 1;
      }
      skipper := skipper + 1;
    }
  }

  // ---- Options -------------------------------------------------------------------------------

  /** The first half of `parse_option`: the line, its end without comment and trailing blanks, and the sign. */
  datatype Frame = Frame(begin: nat, endl: nat, endc: nat, eq: nat)

  function FrameOf(t: string): (f: Frame)
    ensures f.begin <= f.eq <= f.endc <= f.endl <= |t|
  {
    var begin := FindIf(t, 0, |t|, Visible);
    var endl := FindIf(t, begin, |t|, LineEnd);
    var hash := FindIf(t, begin, endl, Hash);
    var endc := AfterLast(t, begin, hash, Visible);
    Frame(begin, endl, endc, FindIf(t, begin, endc, EqualSign))
  }

  function ParseValue(t: string, f: Frame): (r: (nat, Option<Entry>))
    requires f.begin < f.eq < f.endc <= f.endl <= |t|
    ensures r.0 <= |t|
  {
    var endName := AfterLast(t, f.begin, f.eq, NotBlank);
    var beginVal := FindIf(t, f.eq + 1, f.endc, NotBlank);
    if beginVal == f.endl then (f.endl, None)
    else
      var close := if t[beginVal] == '[' then Skip(t, beginVal + 1, 1) else f.endl;
      if t[beginVal] == '[' && close == |t| then (close, None)
      else (close, Some((Uncommented(t, f.begin, endName), Uncommented(t, beginVal, close))))
  }

  /** `parse_option`: where reading goes on, and the option if the text starts with one. */
  function ParseOption(t: string): (r: (nat, Option<Entry>))
    ensures r.0 <= |t|
  {
    var f := FrameOf(t);
    if f.eq == f.endc || f.eq == f.begin then (f.endl, None) else ParseValue(t, f)
  }

  /** What is left to read: past the line end, which is taken for two characters when it starts with `\r`. */
  function Remaining(t: string): (r: string)
    requires t != ""
    ensures |r| < |t|
  {
    var endl := ParseOption(t).0;
    if endl == |t| then ""
    else
      var step := if t[endl] == '\r' then 2 else 1;
      if endl + step > |t| then "" else t[endl + step..]
  }

  lemma RemainingAt(content: string, pos: nat, next: nat)
    requires pos < |content|
    requires var endl := pos + ParseOption(content[pos..]).0;
      next == if endl == |content| then endl else endl + if content[endl] == '\r' then 2 else 1
    ensures Remaining(content[pos..]) == if next <= |content| then content[next..] else ""
  {
    hide ParseOption;
  }

  /** `emplace` keeps the value that is already there. */
  function Emplace(vars: map<string, string>, entry: Option<Entry>): map<string, string> {
    if entry == None || entry.value.0 in vars then vars else vars[entry.value.0 := entry.value.1]
  }

  function ParseFrom(t: string, vars: map<string, string>): map<string, string>
    decreases |t|
  {
    if t == "" then vars else ParseFrom(Remaining(t), Emplace(vars, ParseOption(t).1))
  }

  /** `parse_config`: terminates on every text. */
  method ParseConfig(content: string) returns (vars: map<string, string>)
    ensures vars == ParseFrom(content, map[])
  {
    hide ParseOption, Remaining;
    vars := map[];
    var pos := 0;
    while pos < |content|
      invariant 0 <= pos <= |content| + 1
      invariant ParseFrom(content, map[]) == if pos <= |content| then ParseFrom(content[pos..], vars) else vars
      decreases |content| - pos
    {
      ghost var from := pos;
      var (endl, entry) := ParseOption(content[pos..]);
      pos := pos + endl;
      if pos != |content| {
        pos := pos + if content[pos] == '\r' then 2 else 1;
      }
      RemainingAt(content, from, pos);
      vars := Emplace(vars, entry);
    }
  }

  // ---- Printing ------------------------------------------------------------------------------

  predicate Saved(entry: Entry) {
    entry.1 != "" && entry.1 != "null"
  }

  function Line(entry: Entry): string {
    entry.0 + " = " + entry.1 + "\n"
  }

  function Printed(entries: seq<Entry>): string {
    if entries == [] then ""
    else (if Saved(entries[0]) then Line(entries[0]) else "") + Printed(entries[1..])
  }

  /** The print loop of `saveConfig`. */
  method PrintConfig(entries: seq<Entry>) returns (configStream: string)
    ensures configStream == Printed(entries)
  {
    configStream := "";
    for i := 0 to |entries|
      invariant configStream + Printed(entries[i..]) == Printed(entries)
    {
      assert entries[i..][1..] == entries[i + 1..];
      ghost var rest := Printed(entries[i + 1..]);
      if |entries[i].1| == 0 || entries[i].1 == "null" {
        continue;
      }
      ghost var before := configStream;
      configStream := configStream + entries[i].0 + " = " + entries[i].1 + "\n";
      assert configStream == before + Line(entries[i]);
      assert before + (Line(entries[i]) + rest) == configStream + rest;
    }
  }

  // ---- Which lines are read back -----------------------------------------------------------

  /** Opening less closing brackets in `i .. j`. */
  function Balance(t: string, i: nat, j: nat): int
    requires i <= j <= |t|
    decreases j - i
  {
    if i == j then 0 else Weight(t[i]) + Balance(t, i + 1, j)
  }

  lemma {:induction false} BalanceCounts(t: string, i: nat, j: nat)
    requires i <= j <= |t|
    ensures Balance(t, i, j) + multiset(t[i..j])[']'] == multiset(t[i..j])['[']
    decreases j - i
  {
    if i < j {
      BalanceCounts(t, i + 1, j);
      assert t[i..j] == [t[i]] + t[i + 1..j];
    }
  }

  /** The first bracket is closed by the last character, and by no other. */
  predicate ClosesAtEnd(v: string) {
    && v != "" && v[0] == '['
    && Balance(v, 0, |v|) == 0
    && forall k :: 0 < k < |v| ==> Balance(v, 0, k) > 0
  }

  predicate GoodKey(k: string) {
    && k != "" && !Whitespace(k[0]) && !SpaceTab(k[|k| - 1])
    && NoneOf(k, Hash) && NoneOf(k, EqualSign) && NoneOf(k, LineEnd)
  }

  predicate GoodValue(v: string) {
    && v != "" && !SpaceTab(v[0]) && NoneOf(v, Hash)
    && if v[0] == '[' then ClosesAtEnd(v) else NoneOf(v, LineEnd)
  }

  /** `Skip` stops at the first position where the balance is even, or at the end. */
  lemma {:induction false} SkipBalance(t: string, i: nat, stack: int)
    requires i <= |t|
    ensures var r := Skip(t, i, stack);
      && (forall q :: i <= q < r ==> stack + Balance(t, i, q) != 0)
      && (r < |t| ==> stack + Balance(t, i, r) == 0)
    decreases |t| - i
  {
    if i < |t| && stack != 0 {
      SkipBalance(t, i + 1, stack + Weight(t[i]));
    }
  }

  lemma {:induction false} SkipIs(t: string, i: nat, stack: int, r: nat)
    requires i <= r <= |t| && stack + Balance(t, i, r) == 0
    requires forall q :: i <= q < r ==> stack + Balance(t, i, q) != 0
    ensures Skip(t, i, stack) == r
    decreases |t| - i
  {
    if i < r {
      assert stack + Balance(t, i, i) != 0;
      var next := i + 1;
      forall q | next <= q < r
        ensures stack + Weight(t[i]) + Balance(t, next, q) != 0
      {
        assert stack + Balance(t, i, q) != 0;
      }
      SkipIs(t, next, stack + Weight(t[i]), r);
    }
  }

  lemma {:induction false} BalanceSplit(t: string, i: nat, m: nat, j: nat)
    requires i <= m <= j <= |t|
    ensures Balance(t, i, j) == Balance(t, i, m) + Balance(t, m, j)
    decreases m - i
  {
    if i < m {
      BalanceSplit(t, i + 1, m, j);
    }
  }

  /** A balance that starts positive and is never zero stays positive. */
  lemma {:induction false} StaysPositive(t: string, i: nat, j: nat)
    requires i < j <= |t| && t[i] == '['
    requires forall q :: i < q <= j ==> Balance(t, i, q) != 0
    ensures Balance(t, i, j) > 0
    decreases j - i
  {
    if j > i + 1 {
      StaysPositive(t, i, j - 1);
      BalanceSplit(t, i, j - 1, j);
    }
  }

  lemma {:induction false} BalanceShift(t: string, o: nat, v: string, i: nat, j: nat)
    requires o + |v| <= |t| && t[o..o + |v|] == v && i <= j <= |v|
    ensures Balance(t, o + i, o + j) == Balance(v, i, j)
    decreases j - i
  {
    if i < j {
      assert t[o + i] == v[i];
      BalanceShift(t, o, v, i + 1, j);
    }
  }

  /** A list value inside a longer text is skipped to exactly its end if, and only if, it closes there. */
  lemma SkipIff(t: string, o: nat, v: string)
    requires v != "" && v[0] == '[' && o + |v| < |t| && t[o..o + |v|] == v
    ensures Skip(t, o + 1, 1) == o + |v| <==> ClosesAtEnd(v)
  {
    var r, e := Skip(t, o + 1, 1), o + |v|;
    SkipBalance(t, o + 1, 1);
    assert t[o] == v[0];
    assert forall q :: o < q <= |t| ==> Balance(t, o, q) == 1 + Balance(t, o + 1, q);
    forall k | 0 <= k <= |v|
      ensures Balance(t, o, o + k) == Balance(v, 0, k)
    {
      BalanceShift(t, o, v, 0, k);
    }
    if ClosesAtEnd(v) {
      var next := o + 1;
      forall q | next <= q < e
        ensures 1 + Balance(t, next, q) != 0
      {
        assert Balance(t, o, o + (q - o)) == Balance(v, 0, q - o);
      }
      assert Balance(t, o, o + |v|) == Balance(v, 0, |v|);
      SkipIs(t, next, 1, e);
    }
    if r == e {
      forall k | 0 < k < |v|
        ensures Balance(v, 0, k) > 0
      {
        assert forall q :: o < q <= o + k ==> Balance(t, o, q) != 0;
        StaysPositive(t, o, o + k);
        assert Balance(t, o, o + k) == Balance(v, 0, k);
      }
      assert Balance(t, o, o + |v|) == Balance(v, 0, |v|);
    }
  }

  lemma FrameIs(t: string, n: nat)
    requires 0 < n && n + 2 < |t| && t[n] == ' ' && t[n + 1] == '=' && t[n + 2] == ' '
    requires forall i :: 0 <= i < n ==> !Is(Hash, t[i]) && !Is(EqualSign, t[i]) && !Is(LineEnd, t[i])
    requires Is(Visible, t[0]) && Is(NotBlank, t[n - 1])
    ensures var f := FrameOf(t);
      f.begin == 0 && f.eq == n + 1 && f.eq < f.endc && n + 3 <= f.endl && AfterLast(t, 0, f.eq, NotBlank) == n
  {
    FindIs(t, 0, |t|, Visible, 0);
    var f := FrameOf(t);
    assert Is(Visible, t[n + 1]);
    FindIs(t, 0, f.endc, EqualSign, n + 1);
  }

  /** A good key is found whole, whatever follows its sign. */
  lemma KeyFramed(k: string, v: string, rest: string)
    requires GoodKey(k)
    ensures var t := Line((k, v)) + rest;
      var f := FrameOf(t);
      && f.begin == 0 && f.eq == |k| + 1 && f.eq < f.endc && |k| + 3 <= f.endl
      && AfterLast(t, 0, f.eq, NotBlank) == |k|
      && Uncommented(t, 0, |k|) == k
  {
    var t, n := Line((k, v)) + rest, |k|;
    assert t[..n] == k && t[n] == ' ' && t[n + 1] == '=' && t[n + 2] == ' ';
    assert forall i :: 0 <= i < n ==> t[i] == k[i];
    assert forall i :: 0 <= i < n ==> !Is(Hash, t[i]) && !Is(EqualSign, t[i]) && !Is(LineEnd, t[i]);
    FindIs(t, 0, |t|, Visible, 0);
    FrameIs(t, n);
    UncommentedSame(t, 0, n);
  }

  lemma NameGood(t: string, f: Frame, endName: nat)
    requires f == FrameOf(t) && f.begin < endName <= f.eq < f.endc && Is(NotBlank, t[endName - 1])
    ensures Uncommented(t, f.begin, endName) == t[f.begin..endName] && GoodKey(t[f.begin..endName])
  {
    var k := t[f.begin..endName];
    assert forall i :: 0 <= i < |k| ==> k[i] == t[f.begin + i];
    assert forall i :: f.begin <= i < endName ==> !Is(Hash, t[i]) && !Is(EqualSign, t[i]) && !Is(LineEnd, t[i]);
    UncommentedSame(t, f.begin, endName);
  }

  /** Only a good key comes back as it was. */
  lemma KeyForced(t: string)
    requires ParseOption(t).1.Some?
    ensures GoodKey(ParseOption(t).1.value.0)
  {
    var f := FrameOf(t);
    var endName := AfterLast(t, f.begin, f.eq, NotBlank);
    assert Is(Visible, t[f.begin]) && Is(NotBlank, t[f.begin]) && endName > f.begin;
    NameGood(t, f, endName);
  }

  /** The name read off a frame is `k`, whatever the value. */
  lemma Named(t: string, f: Frame, k: string)
    requires f == FrameOf(t) && f.begin == 0 < f.eq < f.endc
    requires AfterLast(t, 0, f.eq, NotBlank) == |k| <= |t| && Uncommented(t, 0, |k|) == k
    ensures ParseOption(t) == ParseValue(t, f)
    ensures ParseOption(t).1.Some? ==> ParseOption(t).1.value.0 == k
  {
    hide Uncommented, Skip;
  }

  lemma CommentIff(t: string, o: nat, v: string)
    requires o + |v| < |t| && t[o..o + |v|] == v
    ensures Uncommented(t, o, o + |v|) == v <==> NoneOf(v, Hash)
  {
    UncommentedHasNone(t, o, o + |v|);
    if NoneOf(v, Hash) {
      assert forall i :: o <= i < o + |v| ==> t[i] == v[i - o];
      UncommentedSame(t, o, o + |v|);
    }
  }

  lemma LineEndIff(t: string, o: nat, v: string, endl: nat)
    requires o + |v| < |t| && t[o..o + |v|] == v && Is(LineEnd, t[o + |v|])
    requires o <= endl <= |t| && (forall i :: o <= i < endl ==> !Is(LineEnd, t[i]))
    requires endl < |t| ==> Is(LineEnd, t[endl])
    ensures endl == o + |v| <==> NoneOf(v, LineEnd)
  {
    assert forall i :: 0 <= i < |v| ==> v[i] == t[o + i];
  }

  /** Reading from the first character of `v`: the close position is right for the good values only. */
  lemma ValueFrom(t: string, o: nat, v: string, endl: nat)
    requires v != "" && o + |v| < |t| && t[o..o + |v|] == v && Is(LineEnd, t[o + |v|]) && Is(NotBlank, v[0])
    requires o <= endl <= |t| && (forall i :: o <= i < endl ==> !Is(LineEnd, t[i]))
    requires endl < |t| ==> Is(LineEnd, t[endl])
    ensures var close := if t[o] == '[' then Skip(t, o + 1, 1) else endl;
      close == o + |v| && Uncommented(t, o, close) == v <==> GoodValue(v)
  {
    hide Skip, ClosesAtEnd, Uncommented;
    assert t[o] == v[0];
    if v[0] == '[' {
      SkipIff(t, o, v);
    } else {
      LineEndIff(t, o, v, endl);
    }
    CommentIff(t, o, v);
  }

  /** A visible character behind the sign is in front of the end of the line and of the value. */
  lemma SeenValue(t: string, o: nat, f: Frame)
    requires f == FrameOf(t) && f.begin < f.eq < f.endc && f.eq < o <= f.endl && o < |t|
    requires o == f.eq + 2 && t[o - 1] == ' ' && Is(Visible, t[o]) && !Is(Hash, t[o])
    ensures o < f.endc <= f.endl
    ensures (forall i :: o <= i < f.endl ==> !Is(LineEnd, t[i])) && (f.endl < |t| ==> Is(LineEnd, t[f.endl]))
  {
    hide FindIf, AfterLast;
  }

  /** A value whose first character is seen is read from there. */
  lemma VisibleValue(t: string, o: nat, v: string, f: Frame)
    requires f == FrameOf(t) && f.begin == 0 < f.eq < f.endc && o == f.eq + 2 && o <= f.endl
    requires v != "" && o + |v| < |t| && t[o..o + |v|] == v && t[o + |v|] == '\n' && t[o - 1] == ' '
    requires Is(Visible, v[0]) && !Is(Hash, v[0])
    ensures var (close, entry) := ParseValue(t, f);
      close == o + |v| && entry.Some? && entry.value.1 == v <==> GoodValue(v)
  {
    hide Uncommented, Skip, GoodValue, FrameOf;
    assert t[o] == v[0];
    SeenValue(t, o, f);
    FindIs(t, f.eq + 1, f.endc, NotBlank, o);
    ValueFrom(t, o, v, f.endl);
  }

  lemma NoHash(t: string, o: nat, v: string)
    requires 0 < o && o + |v| < |t| && t[o..o + |v|] == v && t[o - 1] == ' ' && NoneOf(v, Hash)
    ensures forall k :: o - 1 <= k < o + |v| ==> !Is(Hash, t[k])
  {
    assert forall i :: o <= i < o + |v| ==> t[i] == v[i - o];
  }

  lemma EndOfValue(t: string, f: Frame)
    requires f == FrameOf(t) && f.begin < f.endc
    ensures Is(Visible, t[f.endc - 1]) && forall i :: f.begin <= i < f.endc ==> !Is(LineEnd, t[i])
  {
    hide FindIf, AfterLast;
  }

  lemma HiddenStart(t: string, o: nat, v: string, f: Frame)
    requires f == FrameOf(t) && f.begin == 0 < f.eq < f.endc && o == f.eq + 2 && o <= f.endl
    requires o + |v| < |t| && t[o..o + |v|] == v && t[o + |v|] == '\n' && t[o - 1] == ' '
    requires v == "" || !Is(Visible, v[0])
    ensures var beginVal := FindIf(t, f.eq + 1, f.endc, NotBlank); beginVal <= o ==> beginVal == o - 1
  {
    hide Uncommented, Skip, FrameOf;
    EndOfValue(t, f);
    assert v != "" ==> t[o] == v[0];
    assert f.endc != o;
  }

  /** A value that is empty or starts with a blank, a line end or a comment sign never comes back. */
  lemma HiddenValue(t: string, o: nat, v: string, f: Frame)
    requires f == FrameOf(t) && f.begin == 0 < f.eq < f.endc && o == f.eq + 2 && o <= f.endl
    requires o + |v| < |t| && t[o..o + |v|] == v && t[o + |v|] == '\n' && t[o - 1] == ' '
    requires v == "" || !Is(Visible, v[0]) || Is(Hash, v[0])
    ensures var (close, entry) := ParseValue(t, f);
      !(close == o + |v| && entry.Some? && entry.value.1 == v)
  {
    hide Uncommented, Skip;
    var beginVal := FindIf(t, f.eq + 1, f.endc, NotBlank);
    var (close, entry) := ParseValue(t, f);
    if close == o + |v| && entry.Some? && entry.value.1 == v {
      UncommentedHasNone(t, beginVal, close);
      assert |v| <= close - beginVal && beginVal <= o;
      HiddenStart(t, o, v, f);
      NoHash(t, o, v);
      UncommentedSame(t, o - 1, close);
      assert false;
    }
  }

  /** Behind a good key, a value comes back whole, up to the line end printed after it, exactly when it is good. */
  lemma ValueIff(k: string, v: string, rest: string)
    requires GoodKey(k)
    ensures ParseOption(Line((k, v)) + rest) == (|k| + 3 + |v|, Some((k, v))) <==> GoodValue(v)
  {
    hide Uncommented, Skip, GoodKey, ClosesAtEnd, FrameOf, ParseOption, ParseValue;
    var t, o := Line((k, v)) + rest, |k| + 3;
    KeyFramed(k, v, rest);
    var f := FrameOf(t);
    Named(t, f, k);
    assert t[o..o + |v|] == v && t[o + |v|] == '\n' && t[o - 1] == ' ';
    if v != "" && Is(Visible, v[0]) && !Is(Hash, v[0]) {
      assert t[o] == v[0];
      VisibleValue(t, o, v, f);
    } else {
      HiddenValue(t, o, v, f);
    }
  }

  /**
   Whatever follows it in the file, a printed line is read back as the same option, and
   reading goes on at its line end, exactly when key and value are good.
   */
  lemma LineIff(k: string, v: string, rest: string)
    ensures ParseOption(Line((k, v)) + rest) == (|k| + 3 + |v|, Some((k, v))) <==> GoodKey(k) && GoodValue(v)
  {
    var t := Line((k, v)) + rest;
    if GoodKey(k) {
      ValueIff(k, v, rest);
    } else if ParseOption(t).1.Some? {
      KeyForced(t);
    }
  }

  // ---- Parsing undoes saving -----------------------------------------------------------------

  /** The map the parser is meant to end with: of several entries with one key the first counts. */
  function Expected(entries: seq<Entry>, vars: map<string, string>): map<string, string> {
    if entries == [] then vars
    else Expected(entries[1..], if Saved(entries[0]) then Emplace(vars, Some(entries[0])) else vars)
  }

  lemma LineRemaining(k: string, v: string, rest: string)
    requires GoodKey(k) && GoodValue(v)
    ensures Remaining(Line((k, v)) + rest) == rest
  {
    hide ParseOption;
    LineIff(k, v, rest);
    var t, n := Line((k, v)) + rest, |k| + 3 + |v|;
    assert t[n] == '\n' && t[n + 1..] == rest;
  }

  lemma {:induction false} ParsePrinted(entries: seq<Entry>, vars: map<string, string>)
    requires forall i :: 0 <= i < |entries| && Saved(entries[i]) ==> GoodKey(entries[i].0) && GoodValue(entries[i].1)
    ensures ParseFrom(Printed(entries), vars) == Expected(entries, vars)
    decreases |entries|
  {
    if entries != [] {
      var (k, v) := entries[0];
      var rest := Printed(entries[1..]);
      if Saved(entries[0]) {
        LineIff(k, v, rest);
        LineRemaining(k, v, rest);
        ParsePrinted(entries[1..], Emplace(vars, Some((k, v))));
      } else {
        ParsePrinted(entries[1..], vars);
        assert Printed(entries) == rest;
      }
    }
  }

  /** Entry `i` makes the setting of `k`: it is neither empty nor `null`, and the first such for the key. */
  ghost predicate Makes(entries: seq<Entry>, i: int, k: string) {
    && 0 <= i < |entries| && entries[i].0 == k && entries[i].1 != "" && entries[i].1 != "null"
    && forall j :: 0 <= j < i && entries[j].0 == k ==> entries[j].1 == "" || entries[j].1 == "null"
  }

  lemma MakesFirst(entries: seq<Entry>, k: string)
    requires entries != [] && entries[0].0 == k && Saved(entries[0])
    ensures forall i :: Makes(entries, i, k) <==> i == 0
  {
  }

  lemma MakesLater(entries: seq<Entry>, k: string)
    requires entries != [] && !(entries[0].0 == k && Saved(entries[0]))
    ensures forall i :: 0 < i && Makes(entries, i, k) ==> Makes(entries[1..], i - 1, k)
    ensures forall i :: Makes(entries[1..], i, k) ==> Makes(entries, i + 1, k)
    ensures !Makes(entries, 0, k)
  {
    forall i | Makes(entries[1..], i, k)
      ensures Makes(entries, i + 1, k)
    {
      forall j | 0 < j < i + 1 && entries[j].0 == k
        ensures entries[j].1 == "" || entries[j].1 == "null"
      {
        assert entries[1..][j - 1] == entries[j];
      }
    }
  }

  lemma {:induction false} ExpectedIs(entries: seq<Entry>, vars: map<string, string>, k: string)
    ensures var m := Expected(entries, vars);
      && (k in vars ==> k in m && m[k] == vars[k])
      && (k !in vars && k in m ==> exists i :: Makes(entries, i, k))
      && (forall i :: 0 <= i < |entries| && k !in vars && Makes(entries, i, k) ==> k in m && m[k] == entries[i].1)
    decreases |entries|
  {
    if entries != [] {
      hide Makes;
      ExpectedIs(entries[1..], if Saved(entries[0]) then Emplace(vars, Some(entries[0])) else vars, k);
      if entries[0].0 == k && Saved(entries[0]) {
        MakesFirst(entries, k);
        assert Makes(entries, 0, k);
      } else {
        MakesLater(entries, k);
        if i :| Makes(entries[1..], i, k) {
          assert Makes(entries, i + 1, k);
        }
      }
    }
  }

  predicate DistinctKeys(entries: seq<Entry>) {
    forall i, j :: 0 <= i < j < |entries| ==> entries[i].0 != entries[j].0
  }

  /** With distinct keys at most one entry makes a setting, and it does when it is saved at all. */
  lemma DistinctMakes(entries: seq<Entry>, k: string)
    requires DistinctKeys(entries)
    ensures forall i :: Makes(entries, i, k) ==> 0 <= i < |entries| && entries[i].0 == k && Saved(entries[i])
    ensures forall i :: 0 <= i < |entries| && entries[i].0 == k && Saved(entries[i]) ==> Makes(entries, i, k)
  {
  }

  lemma SettingOf(entries: seq<Entry>, k: string)
    requires forall i :: 0 <= i < |entries| && Saved(entries[i]) ==> GoodKey(entries[i].0) && GoodValue(entries[i].1)
    ensures var m := ParseFrom(Printed(entries), map[]);
      && (k in m ==> exists i :: Makes(entries, i, k))
      && (forall i :: 0 <= i < |entries| && Makes(entries, i, k) ==> k in m && m[k] == entries[i].1)
  {
    hide GoodKey, GoodValue, ParseFrom, Printed, Expected, Makes;
    ParsePrinted(entries, map[]);
    ExpectedIs(entries, map[], k);
  }

  /**
   Saving and loading, whatever the keys: the parsed map has for each key the value of the first
   entry that is neither empty nor `null`, and nothing else. Each entry must be one of those two
   or good.
   */
  lemma FirstSettingCounts(entries: seq<Entry>)
    requires forall i :: 0 <= i < |entries| ==>
      entries[i].1 == "" || entries[i].1 == "null" || (GoodKey(entries[i].0) && GoodValue(entries[i].1))
    ensures var m := ParseFrom(Printed(entries), map[]);
      forall k: string :: (k in m ==> exists i :: Makes(entries, i, k))
                       && (forall i :: 0 <= i < |entries| && Makes(entries, i, k) ==> k in m && m[k] == entries[i].1)
  {
    hide GoodKey, GoodValue, ParseFrom, Printed, Makes;
    forall k: string
      ensures var m := ParseFrom(Printed(entries), map[]);
        && (k in m ==> exists i :: Makes(entries, i, k))
        && (forall i :: 0 <= i < |entries| && Makes(entries, i, k) ==> k in m && m[k] == entries[i].1)
    {
      SettingOf(entries, k);
    }
  }

  predicate Has(m: map<string, string>, k: string, v: string) {
    k in m && m[k] == v
  }

  lemma SettingIff(entries: seq<Entry>, m: map<string, string>, k: string, v: string)
    requires DistinctKeys(entries)
    requires k in m ==> exists i :: Makes(entries, i, k)
    requires forall i :: 0 <= i < |entries| && Makes(entries, i, k) ==> k in m && m[k] == entries[i].1
    ensures Has(m, k, v) <==> (k, v) in entries && v != "" && v != "null"
  {
    hide Makes, DistinctKeys;
    DistinctMakes(entries, k);
    if k in m {
      var i :| Makes(entries, i, k);
      assert m[k] == entries[i].1 && entries[i] == (k, m[k]);
      assert entries[i] in entries;
    }
    if (k, v) in entries && v != "" && v != "null" {
      var i :| 0 <= i < |entries| && entries[i] == (k, v);
      assert Makes(entries, i, k);
    }
  }

  lemma RoundTripOf(entries: seq<Entry>, k: string, v: string)
    requires DistinctKeys(entries)
    requires forall i :: 0 <= i < |entries| && Saved(entries[i]) ==> GoodKey(entries[i].0) && GoodValue(entries[i].1)
    ensures Has(ParseFrom(Printed(entries), map[]), k, v) <==> (k, v) in entries && v != "" && v != "null"
  {
    hide GoodKey, GoodValue, ParseFrom, Printed, Makes, DistinctKeys, Has;
    SettingOf(entries, k);
    SettingIff(entries, ParseFrom(Printed(entries), map[]), k, v);
  }

  /**
   Saving and loading: for entries with distinct keys that are empty, `null` or good, the parsed
   map holds exactly those that are neither empty nor `null`.
   */
  lemma RoundTrip(entries: seq<Entry>)
    requires DistinctKeys(entries)
    requires forall i :: 0 <= i < |entries| ==>
      entries[i].1 == "" || entries[i].1 == "null" || (GoodKey(entries[i].0) && GoodValue(entries[i].1))
    ensures var m := ParseFrom(Printed(entries), map[]);
      forall k: string, v: string :: Has(m, k, v) <==> (k, v) in entries && v != "" && v != "null"
  {
    hide GoodKey, GoodValue, ParseFrom, Printed, DistinctKeys, Has;
    var m := ParseFrom(Printed(entries), map[]);
    forall k: string, v: string
      ensures Has(m, k, v) <==> (k, v) in entries && v != "" && v != "null"
    {
      RoundTripOf(entries, k, v);
    }
  }

  /** One setting, as it stands in the file. */
  lemma PrintExample()
    ensures Printed([("fps", "60"), ("adapter", ""), ("output", "null")]) == "fps = 60\n"
  {
    var entries := [("fps", "60"), ("adapter", ""), ("output", "null")];
    assert entries[1..] == [("adapter", ""), ("output", "null")] && entries[1..][1..] == [("output", "null")];
    assert entries[1..][1..][1..] == [];
    assert Line(entries[0]) == "fps = 60\n";
  }

  // ---- Lines written by hand ----------------------------------------------------------------------

  predicate Blanks(t: string) {
    forall i :: 0 <= i < |t| ==> SpaceTab(t[i])
  }

  predicate Spaces(t: string) {
    forall i :: 0 <= i < |t| ==> Whitespace(t[i])
  }

  /** A value that is no list and has neither comment nor line end; blanks at its end belong to it. */
  predicate PlainValue(v: string) {
    v != "" && Is(Visible, v[0]) && v[0] != '[' && NoneOf(v, Hash) && NoneOf(v, LineEnd)
  }

  predicate Comment(t: string) {
    t == "" || (t[0] == '#' && NoneOf(t, LineEnd))
  }

  /** A line as people write it: space in front, blanks around the sign, a comment, either line end. */
  datatype Written = Written(
    front: string, key: string, before: string, after: string, value: string, comment: string, end: string)
  {
    predicate Valid() {
      && Spaces(front) && GoodKey(key) && Blanks(before) && Blanks(after) && PlainValue(value) && Comment(comment)
      && (end == "\n" || end == "\r\n")
    }

    function Text(): string {
      front + key + before + "=" + after + value + comment + end
    }

    /** Where name, sign, value, comment and line end stand. */
    function NameAt(): nat { |front| }

    function SignAt(): nat { |front| + |key| + |before| }

    function ValueAt(): nat { SignAt() + 1 + |after| }

    function CommentAt(): nat { ValueAt() + |value| }

    function EndAt(): nat { CommentAt() + |comment| }
  }

  /** The line stands at the start of `t`, character by character. */
  ghost predicate StandsIn(w: Written, t: string, rest: string) {
    && w.EndAt() + |w.end| + |rest| == |t|
    && (forall i :: 0 <= i < w.NameAt() ==> Whitespace(t[i]))
    && t[w.NameAt()..w.NameAt() + |w.key|] == w.key
    && (forall i :: w.NameAt() + |w.key| <= i < w.SignAt() ==> SpaceTab(t[i]))
    && t[w.SignAt()] == '='
    && (forall i :: w.SignAt() < i < w.ValueAt() ==> SpaceTab(t[i]))
    && t[w.ValueAt()..w.CommentAt()] == w.value
    && t[w.CommentAt()..w.EndAt()] == w.comment
    && t[w.EndAt()..] == w.end + rest
  }

  lemma SevenParts(p: seq<string>, rest: string)
    requires |p| == 7
    ensures var a, k, b, s, c, v, e := p[0], p[1], p[2], p[3], p[4], p[5], p[6];
      var t := a + k + b + s + c + v + e + rest;
      var i, j := |a| + |k| + |b|, |a| + |k| + |b| + |s| + |c|;
      && t[..|a|] == a && t[|a|..|a| + |k|] == k && t[|a| + |k|..i] == b && t[i..i + |s|] == s
      && t[i + |s|..j] == c && t[j..j + |v|] == v && t[j + |v|..j + |v| + |e|] == e && t[j + |v| + |e|..] == rest
  {
  }

  lemma StretchOf(t: string, i: nat, j: nat, s: string)
    requires i <= j <= |t| && t[i..j] == s
    ensures |s| == j - i && forall q :: i <= q < j ==> t[q] == s[q - i]
  {
  }

  lemma PartsStand(w: Written, t: string, rest: string)
    requires w.Valid() && |t| == w.EndAt() + |w.end| + |rest|
    requires t[..w.NameAt()] == w.front && t[w.NameAt()..w.NameAt() + |w.key|] == w.key
    requires t[w.NameAt() + |w.key|..w.SignAt()] == w.before && t[w.SignAt()..w.SignAt() + 1] == "="
    requires t[w.SignAt() + 1..w.ValueAt()] == w.after && t[w.ValueAt()..w.CommentAt()] == w.value
    requires t[w.CommentAt()..w.EndAt()] == w.comment && t[w.EndAt()..] == w.end + rest
    ensures StandsIn(w, t, rest)
  {
    hide GoodKey, PlainValue, Comment;
    StretchOf(t, 0, w.NameAt(), w.front);
    StretchOf(t, w.NameAt() + |w.key|, w.SignAt(), w.before);
    StretchOf(t, w.SignAt(), w.SignAt() + 1, "=");
    StretchOf(t, w.SignAt() + 1, w.ValueAt(), w.after);
  }

  lemma Regrouped(x: string, y: string, z: string)
    ensures x + y + z == x + (y + z)
  {
  }

  lemma WrittenStands(w: Written, rest: string)
    requires w.Valid()
    ensures StandsIn(w, w.Text() + rest, rest)
  {
    hide GoodKey, PlainValue, Comment, StandsIn, Blanks, Spaces;
    var t, tail := w.Text() + rest, w.end + rest;
    Regrouped(w.front + w.key + w.before + "=" + w.after + w.value + w.comment, w.end, rest);
    SevenParts([w.front, w.key, w.before, "=", w.after, w.value, w.comment], tail);
    PartsStand(w, t, rest);
  }

  /** A stretch of the text that reads `s`. */
  lemma StretchNone(t: string, i: nat, j: nat, s: string, kind: Kind)
    requires i <= j <= |t| && t[i..j] == s && NoneOf(s, kind)
    ensures forall q :: i <= q < j ==> !Is(kind, t[q])
  {
    assert forall q :: i <= q < j ==> t[q] == s[q - i];
  }

  /** What each part of the line has none of. */
  lemma WrittenParts(w: Written, t: string, rest: string)
    requires w.Valid() && StandsIn(w, t, rest)
    ensures w.NameAt() < w.SignAt() && w.ValueAt() < w.CommentAt() && w.EndAt() < |t| && Is(LineEnd, t[w.EndAt()])
    ensures Is(Visible, t[w.NameAt()]) && Is(NotBlank, t[w.NameAt() + |w.key| - 1]) && Is(Visible, t[w.ValueAt()])
    ensures t[w.ValueAt()] != '['
    ensures forall i :: w.NameAt() <= i < w.EndAt() ==> !Is(LineEnd, t[i])
    ensures forall i :: w.NameAt() <= i < w.CommentAt() ==> !Is(Hash, t[i])
    ensures forall i :: w.NameAt() <= i < w.SignAt() ==> !Is(EqualSign, t[i])
    ensures w.CommentAt() < w.EndAt() ==> Is(Hash, t[w.CommentAt()])
  {
    var a, n, e, v, c, l := w.NameAt(), w.NameAt() + |w.key|, w.SignAt(), w.ValueAt(), w.CommentAt(), w.EndAt();
    assert t[a] == w.key[0] && t[n - 1] == w.key[|w.key| - 1] && t[v] == w.value[0];
    assert t[l] == (w.end + rest)[0];
    StretchNone(t, a, n, w.key, LineEnd);
    StretchNone(t, a, n, w.key, Hash);
    StretchNone(t, a, n, w.key, EqualSign);
    StretchNone(t, v, c, w.value, LineEnd);
    StretchNone(t, v, c, w.value, Hash);
    if w.comment != "" {
      StretchNone(t, c, l, w.comment, LineEnd);
      assert t[c] == w.comment[0];
    }
  }

  lemma WrittenFrame(w: Written, t: string, rest: string)
    requires w.Valid() && StandsIn(w, t, rest)
    ensures var f := FrameOf(t);
      && f.begin == w.NameAt() < f.eq == w.SignAt() && f.endl == w.EndAt()
      && w.ValueAt() < f.endc <= w.CommentAt() <= w.EndAt() < |t|
  {
    hide GoodKey, PlainValue, Comment;
    var a, e, v, c, l := w.NameAt(), w.SignAt(), w.ValueAt(), w.CommentAt(), w.EndAt();
    WrittenParts(w, t, rest);
    FindIs(t, 0, |t|, Visible, a);
    FindIs(t, a, |t|, LineEnd, l);
    FindIs(t, a, l, Hash, c);
    var endc := AfterLast(t, a, c, Visible);
    assert endc > v;
    FindIs(t, a, endc, EqualSign, e);
  }

  /** A value and the comment behind it. */
  lemma UncommentedTail(t: string, v: nat, c: nat, l: nat)
    requires v <= c <= l <= |t| && (forall i :: v <= i < c ==> !Is(Hash, t[i])) && (c < l ==> Is(Hash, t[c]))
    requires forall i :: v <= i < l ==> !Is(LineEnd, t[i])
    ensures Uncommented(t, v, l) == t[v..c]
  {
    if v < l {
      FindIs(t, v, l, Hash, c);
      FindIs(t, c, l, LineEnd, l);
      assert Uncommented(t, l, l) == "";
    }
  }

  lemma AfterEnd(w: Written, t: string, rest: string)
    requires w.Valid() && StandsIn(w, t, rest)
    ensures w.EndAt() + |w.end| <= |t| && t[w.EndAt()] == w.end[0] && t[w.EndAt() + |w.end|..] == rest
  {
    assert t[w.EndAt()] == (w.end + rest)[0];
    assert t[w.EndAt()..][|w.end|..] == rest;
  }

  lemma NameEnds(t: string, a: nat, n: nat, e: nat)
    requires a < n <= e <= |t| && Is(NotBlank, t[n - 1]) && forall i :: n <= i < e ==> SpaceTab(t[i])
    ensures AfterLast(t, a, e, NotBlank) == n
  {
  }

  lemma WrittenValue(w: Written, t: string, rest: string, f: Frame)
    requires w.Valid() && StandsIn(w, t, rest)
    requires f.begin == w.NameAt() < f.eq == w.SignAt() && f.endl == w.EndAt()
    requires w.ValueAt() < f.endc <= w.CommentAt() <= w.EndAt() < |t|
    ensures ParseValue(t, f) == (w.EndAt(), Some((w.key, w.value)))
  {
    hide Uncommented, GoodKey, PlainValue, Comment, AfterLast;
    var a, n, e, v, c, l := w.NameAt(), w.NameAt() + |w.key|, w.SignAt(), w.ValueAt(), w.CommentAt(), w.EndAt();
    WrittenParts(w, t, rest);
    FindIs(t, e + 1, f.endc, NotBlank, v);
    NameEnds(t, a, n, e);
    UncommentedSame(t, a, n);
    UncommentedTail(t, v, c, l);
  }

  /**
   A line written by hand is read as its key and its value, without the space in front, the blanks
   around the sign and the comment, and reading goes on behind its line end, whichever it is. The
   blanks between the value and a comment stay in the value.
   */
  lemma HandWritten(w: Written, rest: string)
    requires w.Valid()
    ensures var t := w.Text() + rest;
      ParseOption(t) == (w.EndAt(), Some((w.key, w.value))) && Remaining(t) == rest
  {
    hide FrameOf, ParseValue;
    var t := w.Text() + rest;
    WrittenStands(w, rest);
    WrittenFrame(w, t, rest);
    WrittenValue(w, t, rest, FrameOf(t));
    AfterEnd(w, t, rest);
  }

  lemma NoSign(t: string, a: nat, c: nat, l: nat)
    requires a <= c <= l < |t| && a < l && Is(Visible, t[a]) && Is(LineEnd, t[l])
    requires forall i :: 0 <= i < a ==> Whitespace(t[i])
    requires forall i :: a <= i < l ==> !Is(LineEnd, t[i])
    requires forall i :: a <= i < c ==> !Is(Hash, t[i]) && !Is(EqualSign, t[i])
    requires c < l ==> Is(Hash, t[c])
    ensures ParseOption(t) == (l, None)
  {
    FindIs(t, 0, |t|, Visible, a);
    FindIs(t, a, |t|, LineEnd, l);
    FindIs(t, a, l, Hash, c);
    var endc := AfterLast(t, a, c, Visible);
    FindIs(t, a, endc, EqualSign, endc);
  }

  /** A line with no sign in front of its comment makes no setting, and is passed over whole. */
  lemma NoSetting(front: string, text: string, comment: string, end: string, rest: string)
    requires Spaces(front) && Comment(comment) && (end == "\n" || end == "\r\n") && text + comment != ""
    requires NoneOf(text, Hash) && NoneOf(text, EqualSign) && NoneOf(text, LineEnd)
    requires text != "" ==> Is(Visible, text[0])
    ensures var t := front + text + comment + end + rest;
      ParseOption(t) == (|front| + |text| + |comment|, None) && Remaining(t) == rest
  {
    hide ParseOption;
    var t := front + text + comment + end + rest;
    var a, c := |front|, |front| + |text|;
    var l := c + |comment|;
    assert t[a..c] == text && t[c..l] == comment && t[l..] == end + rest;
    StretchNone(t, a, c, text, LineEnd);
    StretchNone(t, a, c, text, Hash);
    StretchNone(t, a, c, text, EqualSign);
    if comment != "" {
      StretchNone(t, c, l, comment, LineEnd);
      assert t[c] == comment[0];
    }
    assert t[l] == (end + rest)[0] && t[l..][|end|..] == rest;
    assert text != "" ==> t[a] == text[0];
    NoSign(t, a, c, l);
  }
}
