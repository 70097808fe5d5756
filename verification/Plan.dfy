/** Board layers and the selection of patches from them. */
module Plan {
  datatype Option<T> = None | Some(value: T)

  datatype Error = InvalidBoard | InvalidComponent | Missing(name: string) | Cycle(name: string)

  datatype Result<T> = Ok(value: T) | Err(error: Error)

  /** One configuration directory: its BASE_BOARD, or "", and for each component
      the names of its patch files and of those that it skips. */
  datatype Layer = Layer(base: string, patches: map<string, set<string>>, skips: map<string, set<string>>)

  /** The directories under the configuration root. Different spellings may name
      one directory, as "x" and "./x" do. */
  datatype Config = Config(place: map<string, string>, layers: map<string, Layer>)

  const COMMON: string := "common"

  predicate IsDirectory(c: Config, name: string) {
    name in c.place && c.place[name] in c.layers
  }

  /** The directory that a layer name stands for, whether it exists or not. */
  function DirOf(c: Config, name: string): string {
    if name in c.place then c.place[name] else name
  }

  function BaseOf(c: Config, name: string): string {
    if IsDirectory(c, name) then c.layers[c.place[name]].base else ""
  }

  function PatchNames(c: Config, name: string, component: string): set<string> {
    if IsDirectory(c, name) && component in c.layers[c.place[name]].patches
    then c.layers[c.place[name]].patches[component] else {}
  }

  function SkipNames(c: Config, name: string, component: string): set<string> {
    if IsDirectory(c, name) && component in c.layers[c.place[name]].skips
    then c.layers[c.place[name]].skips[component] else {}
  }

  predicate BoardNameOk(board: string) {
    board != "" && board != COMMON && '/' !in board && '\\' !in board
  }

  predicate ComponentOk(component: string) {
    component != "" && forall i :: 0 <= i < |component| ==>
      var ch := component[i];
      'A' <= ch <= 'Z' || 'a' <= ch <= 'z' || '0' <= ch <= '9' || ch == '_' || ch == '.' || ch == '-'
  }

  /** Letters, digits, underscore, dot and hyphen make a component's name; their
      neighbours among the characters do not. */
  lemma ComponentNames(component: string, c: char)
    ensures ComponentOk("u-boot") && ComponentOk("linux_5.10") && ComponentOk("AZaz09") && !ComponentOk("")
    ensures c in "/:@[`{ ,^" && c in component ==> !ComponentOk(component)
  {
    if c in "/:@[`{ ,^" && c in component {
      var i :| 0 <= i < |component| && component[i] == c;
      var others := "/:@[`{ ,^";
      var k :| 0 <= k < |others| && others[k] == c;
    }
  }

  // ---------------------------------------------------------------- inheritance

  /** The board after n steps along BASE_BOARD. */
  function Ancestor(c: Config, board: string, n: nat): string {
    if n == 0 then board else BaseOf(c, Ancestor(c, board, n - 1))
  }

  /** The first n boards are different existing directories' names. */
  predicate Linear(c: Config, board: string, n: nat) {
    && (forall i :: 0 <= i < n ==> Ancestor(c, board, i) != "" && IsDirectory(c, Ancestor(c, board, i)))
    && (forall i, j :: 0 <= i < j < n ==> Ancestor(c, board, i) != Ancestor(c, board, j))
  }

  function Ancestors(c: Config, board: string, n: nat): (r: seq<string>)
    ensures |r| == n && forall i :: 0 <= i < n ==> r[i] == Ancestor(c, board, i)
  {
    if n == 0 then [] else Ancestors(c, board, n - 1) + [Ancestor(c, board, n - 1)]
  }

  /** Inheritance ends after n boards. */
  ghost predicate EndsAfter(c: Config, board: string, n: nat) {
    Linear(c, board, n) && Ancestor(c, board, n) == ""
  }

  /** Inheritance breaks at board n: it is missing, or it was there before. */
  ghost predicate BreaksAt(c: Config, board: string, n: nat, e: Error) {
    && Linear(c, board, n) && Ancestor(c, board, n) != ""
    && match e
       case Missing(name) => name == Ancestor(c, board, n) && !IsDirectory(c, name)
       case Cycle(name) => name == Ancestor(c, board, n) && name in Ancestors(c, board, n)
       case InvalidBoard => false
       case InvalidComponent => false
  }

  lemma EndOrBreak(c: Config, board: string, m: nat, n: nat, e: Error)
    requires BreaksAt(c, board, n, e)
    ensures !EndsAfter(c, board, m)
  {
  }

  /** board_chain: the boards from the given one to its last ancestor, and then
      the common layer. It returns for every configuration, and an error exactly
      when inheritance does not end. */
  method BoardChain(c: Config, board: string) returns (r: Result<seq<string>>, ghost n: nat)
    ensures r == Err(InvalidBoard) <==> !BoardNameOk(board)
    ensures r.Ok? ==> n > 0 && EndsAfter(c, board, n) && r.value == Ancestors(c, board, n) + [COMMON]
    ensures r.Err? && BoardNameOk(board) ==> BreaksAt(c, board, n, r.error)
    ensures BoardNameOk(board) ==> (r.Ok? <==> exists m :: EndsAfter(c, board, m))
  {
    hide Linear, IsDirectory, BaseOf;
    n := 0;
    if !BoardNameOk(board) {
      return Err(InvalidBoard), n;
    }
    LinearIsShort(c, board, 0);
    var chain: seq<string> := [];
    var current := board;
    while current != ""
      invariant n == |chain| && chain == Ancestors(c, board, n)
      invariant current == Ancestor(c, board, n) && Linear(c, board, n)
      invariant current == "" ==> n > 0
      decreases |c.place| - |chain|
    {
      if current in chain {
        NeverEnds(c, board, n, Cycle(current));
        return Err(Cycle(current)), n;
      }
      if !IsDirectory(c, current) {
        NeverEnds(c, board, n, Missing(current));
        return Err(Missing(current)), n;
      }
      LinearNext(c, board, n, chain);
      LinearIsShort(c, board, n + 1);
      chain := chain + [current];
      current := BaseOf(c, current);
      n := n + 1;
    }
    assert EndsAfter(c, board, n);
    chain := chain + [COMMON];
    r := Ok(chain);
  }

  lemma LinearNext(c: Config, board: string, n: nat, chain: seq<string>)
    requires Linear(c, board, n) && chain == Ancestors(c, board, n)
    requires Ancestor(c, board, n) != "" && IsDirectory(c, Ancestor(c, board, n)) && Ancestor(c, board, n) !in chain
    ensures Linear(c, board, n + 1)
  {
    forall i | 0 <= i < n ensures Ancestor(c, board, i) != Ancestor(c, board, n) {
      assert chain[i] == Ancestor(c, board, i);
    }
  }

  lemma LinearIsShort(c: Config, board: string, n: nat)
    ensures Linear(c, board, 0)
    ensures Linear(c, board, n) ==> n <= |c.place|
  {
    if Linear(c, board, n) {
      ChainIsShort(Ancestors(c, board, n), c.place.Keys);
    }
  }

  lemma NeverEnds(c: Config, board: string, n: nat, e: Error)
    requires BreaksAt(c, board, n, e)
    ensures forall m :: !EndsAfter(c, board, m)
  {
    forall m ensures !EndsAfter(c, board, m) {
      EndOrBreak(c, board, m, n, e);
    }
  }

  /** Different names of a finite set. */
  lemma {:induction false} ChainIsShort(s: seq<string>, all: set<string>)
    requires forall i :: 0 <= i < |s| ==> s[i] in all
    requires forall i, j :: 0 <= i < j < |s| ==> s[i] != s[j]
    ensures |s| <= |all|
  {
    if s != [] {
      var n := |s| - 1;
      ChainIsShort(s[..n], all - {s[n]});
    }
  }

  /** The layers are pairwise different names unless inheritance passes through
      "common", which is then a layer twice. */
  lemma LayersDifferExactly(c: Config, board: string, n: nat)
    requires EndsAfter(c, board, n)
    ensures var chain := Ancestors(c, board, n) + [COMMON];
            (forall i, j :: 0 <= i < j < |chain| ==> chain[i] != chain[j]) <==> COMMON !in Ancestors(c, board, n)
  {
    var front := Ancestors(c, board, n);
    var chain := front + [COMMON];
    if COMMON in front {
      var i :| 0 <= i < n && front[i] == COMMON;
      assert chain[i] == chain[n];
    }
  }

  // ---------------------------------------------------------------- order of names

  /** Python's order of strings. */
  predicate Less(a: string, b: string) {
    if b == "" then false
    else if a == "" then true
    else a[0] < b[0] || (a[0] == b[0] && Less(a[1..], b[1..]))
  }

  /** The names agree up to a place where the first has ended, or has the
      smaller character. */
  predicate SmallerAt(a: string, b: string, k: nat) {
    && k <= |a| && k <= |b| && a[..k] == b[..k]
    && ((k == |a| && k < |b|) || (k < |a| && k < |b| && a[k] < b[k]))
  }

  lemma HeadsDiffer(a: string, b: string, k: nat)
    requires a == "" || b == "" || a[0] != b[0]
    ensures SmallerAt(a, b, k) ==> k == 0
  {
    if a != "" && b != "" && 0 < k <= |a| && k <= |b| {
      assert a[..k] != b[..k] by {
        assert a[..k][0] == a[0] && b[..k][0] == b[0];
      }
    }
  }

  /** Less is the order of Python's strings. */
  lemma {:induction false} LessMeans(a: string, b: string)
    ensures Less(a, b) <==> exists k :: 0 <= k <= |a| && SmallerAt(a, b, k)
  {
    if a == "" || b == "" || a[0] != b[0] {
      forall k: nat ensures SmallerAt(a, b, k) ==> k == 0 {
        HeadsDiffer(a, b, k);
      }
      assert Less(a, b) ==> SmallerAt(a, b, 0);
    } else {
      LessMeans(a[1..], b[1..]);
      if k :| 0 <= k <= |a[1..]| && SmallerAt(a[1..], b[1..], k) {
        assert a[..k + 1] == [a[0]] + a[1..][..k] && b[..k + 1] == [b[0]] + b[1..][..k];
        assert SmallerAt(a, b, k + 1);
      }
      if k :| 0 <= k <= |a| && SmallerAt(a, b, k) {
        assert k > 0;
        assert a[1..][..k - 1] == a[..k][1..] && b[1..][..k - 1] == b[..k][1..];
        assert SmallerAt(a[1..], b[1..], k - 1);
      }
    }
  }

  lemma {:induction false} LessIsStrict(a: string, b: string)
    ensures !Less(a, a) && (Less(a, b) ==> a != b && !Less(b, a))
  {
    if a != "" {
      LessIsStrict(a[1..], if b == "" then "" else b[1..]);
    }
  }

  lemma {:induction false} LessIsTotal(a: string, b: string)
    requires a != b
    ensures Less(a, b) || Less(b, a)
  {
    if a != "" && b != "" && a[0] == b[0] {
      assert a[1..] != b[1..] by {
        assert a == [a[0]] + a[1..] && b == [b[0]] + b[1..];
      }
      LessIsTotal(a[1..], b[1..]);
    }
  }

  lemma {:induction false} LessIsTransitive(a: string, b: string, d: string)
    requires Less(a, b) && Less(b, d)
    ensures Less(a, d)
  {
    if a != "" && a[0] == b[0] == d[0] {
      LessIsTransitive(a[1..], b[1..], d[1..]);
    }
  }

  predicate Ascending(names: seq<string>) {
    forall i, j :: 0 <= i < j < |names| ==> Less(names[i], names[j])
  }

  lemma SmallerFirst(names: seq<string>)
    requires Ascending(names)
    ensures forall i, j, k: nat :: 0 <= i < |names| && 0 <= j < |names| ==> SmallerAt(names[i], names[j], k) ==> i < j
  {
    hide Less, SmallerAt;
    forall i, j, k: nat | 0 <= i < |names| && 0 <= j < |names| && SmallerAt(names[i], names[j], k) ensures i < j {
      assert j < i ==> Less(names[j], names[i]);
      SmallerIsShort(names[i], names[j], k);
      LessMeans(names[i], names[j]);
      LessIsStrict(names[i], names[j]);
    }
  }

  lemma SmallerIsShort(a: string, b: string, k: nat)
    requires SmallerAt(a, b, k)
    ensures k <= |a|
  {
  }

  /** sorted(), for different names. */
  method SortNames(names: set<string>) returns (sorted: seq<string>)
    ensures Ascending(sorted) && forall v :: v in sorted <==> v in names
    ensures forall i, j, k: nat :: 0 <= i < |sorted| && 0 <= j < |sorted| ==>
              SmallerAt(sorted[i], sorted[j], k) ==> i < j
  {
    hide Less, SmallerAt;
    sorted := [];
    var rest := names;
    while rest != {}
      invariant rest <= names && Ascending(sorted) && forall v :: v in sorted <==> v in names && v !in rest
      decreases rest
    {
      var v :| v in rest;
      var k := 0;
      while k < |sorted| && Less(sorted[k], v)
        invariant k <= |sorted| && forall i :: 0 <= i < k ==> Less(sorted[i], v)
      {
        k := k + 1;
      }
      InsertKeeps(sorted, k, v);
      sorted := sorted[..k] + [v] + sorted[k..];
      rest := rest - {v};
    }
    SmallerFirst(sorted);
  }

  lemma InsertKeeps(s: seq<string>, k: nat, v: string)
    requires Ascending(s) && k <= |s| && v !in s
    requires (forall i :: 0 <= i < k ==> Less(s[i], v)) && (k < |s| ==> !Less(s[k], v))
    ensures Ascending(s[..k] + [v] + s[k..])
    ensures forall w :: w in s[..k] + [v] + s[k..] <==> w in s || w == v
  {
    hide Less;
    var r := s[..k] + [v] + s[k..];
    forall j | k <= j < |s| ensures Less(v, s[j]) {
      LessIsTotal(s[k], v);
      if j > k {
        LessIsTransitive(v, s[k], s[j]);
      }
    }
    forall i, j | 0 <= i < j < |r| ensures Less(r[i], r[j]) {
      assert r[i] == if i < k then s[i] else if i == k then v else s[i - 1];
      assert r[j] == if j < k then s[j] else if j == k then v else s[j - 1];
    }
    forall w ensures w in r <==> w in s || w == v {
      if w in s {
        var i :| 0 <= i < |s| && s[i] == w;
        assert r[if i < k then i else i + 1] == w;
      }
      assert r[k] == v;
    }
  }

  // ---------------------------------------------------------------- selection

  datatype Path = Path(dir: string, name: string)

  predicate Mentions(c: Config, layer: string, component: string, name: string) {
    name in SkipNames(c, layer, component) || name in PatchNames(c, layer, component)
  }

  /** The layer of highest precedence that mentions the name, or the end. */
  function First(c: Config, chain: seq<string>, component: string, name: string, i: nat): (r: nat)
    requires i <= |chain|
    ensures i <= r <= |chain|
    ensures r < |chain| ==> Mentions(c, chain[r], component, name)
    ensures forall j :: i <= j < r ==> !Mentions(c, chain[j], component, name)
    decreases |chain| - i
  {
    if i == |chain| || Mentions(c, chain[i], component, name) then i else First(c, chain, component, name, i + 1)
  }

  /** What a layer decides about a name it mentions; a skip file wins. */
  function Verdict(c: Config, layer: string, component: string, name: string): Option<string> {
    if name in SkipNames(c, layer, component) then None else Some(DirOf(c, layer))
  }

  /** The patch that the layer of highest precedence provides for its name. */
  predicate Chosen(c: Config, chain: seq<string>, component: string, x: Path) {
    var i := First(c, chain, component, x.name, 0);
    i < |chain| && Verdict(c, chain[i], component, x.name) == Some(x.dir)
  }

  /** How many layers from the k-th on are this directory. */
  function Times(c: Config, chain: seq<string>, k: nat, dir: string): nat
    requires k <= |chain|
    decreases |chain| - k
  {
    if k == |chain| then 0 else (if DirOf(c, chain[k]) == dir then 1 else 0) + Times(c, chain, k + 1, dir)
  }

  predicate DistinctDirs(c: Config, chain: seq<string>) {
    forall i, j :: 0 <= i < j < |chain| ==> DirOf(c, chain[i]) != DirOf(c, chain[j])
  }

  /** The verdicts of the first k layers, the first that mentions a name deciding. */
  ghost predicate SelectedSo(c: Config, chain: seq<string>, component: string, k: nat, selected: map<string,
      Option<string>>)
    requires k <= |chain|
  {
    && (forall name :: name in selected <==> First(c, chain, component, name, 0) < k)
    && (forall name :: name in selected ==>
          selected[name] == Verdict(c, chain[First(c, chain, component, name, 0)], component, name))
  }

  /** One layer: setdefault for its skip files, and then for its patches. */
  method AddLayer(c: Config, before: map<string, Option<string>>, layer: string, component: string)
    returns (selected: map<string, Option<string>>)
    ensures forall name :: name in selected <==> name in before || Mentions(c, layer, component, name)
    ensures forall name :: name in selected ==>
              selected[name] == if name in before then before[name] else Verdict(c, layer, component, name)
  {
    hide IsDirectory;
    selected := before;
    var skips, patches := SkipNames(c, layer, component), PatchNames(c, layer, component);
    var rest := skips;
    while rest != {}
      invariant rest <= skips
      invariant forall name :: name in selected <==> name in before || (name in skips && name !in rest)
      invariant forall name :: name in selected ==> selected[name] == if name in before then before[name] else None
      decreases rest
    {
      var name :| name in rest;
      if name !in selected {
        selected := selected[name := None];
      }
      rest := rest - {name};
    }
    rest := patches;
    while rest != {}
      invariant rest <= patches
      invariant forall name :: name in selected <==>
                  name in before || name in skips || (name in patches && name !in rest)
      invariant forall name :: name in selected ==>
                  selected[name] == if name in before then before[name] else Verdict(c, layer, component, name)
      decreases rest
    {
      var name :| name in rest;
      if name !in selected {
        selected := selected[name := Some(DirOf(c, layer))];
      }
      rest := rest - {name};
    }
  }

  method SelectPatches(c: Config, chain: seq<string>, component: string) returns (selected: map<string, Option<string>>)
    ensures SelectedSo(c, chain, component, |chain|, selected)
  {
    hide Mentions, Verdict;
    selected := map[];
    for k := 0 to |chain|
      invariant SelectedSo(c, chain, component, k, selected)
    {
      selected := AddLayer(c, selected, chain[k], component);
    }
  }

  /** The paths of one directory among the selected ones, in order. */
  method PathsIn(selected: map<string, Option<string>>, dir: string) returns (paths: seq<Path>,
      ghost names: seq<string>)
    ensures Ascending(names) && |paths| == |names| && forall i :: 0 <= i < |paths| ==> paths[i] == Path(dir, names[i])
    ensures forall name :: name in names <==> name in selected && selected[name] == Some(dir)
  {
    hide Ascending;
    var sorted := SortNames(set name | name in selected && selected[name] == Some(dir));
    paths := seq(|sorted|, i requires 0 <= i < |sorted| => Path(dir, sorted[i]));
    names := sorted;
  }

  /** Base layers come first, and names ascend within a layer. */
  predicate Before(c: Config, chain: seq<string>, component: string, x: Path, y: Path) {
    var i, j := First(c, chain, component, x.name, 0), First(c, chain, component, y.name, 0);
    i > j || (i == j && Less(x.name, y.name))
  }

  ghost predicate Counted(c: Config, chain: seq<string>, component: string, k: nat, paths: seq<Path>)
    requires k <= |chain|
  {
    forall x :: multiset(paths)[x] == if Chosen(c, chain, component, x) then Times(c, chain, k, x.dir) else 0
  }

  ghost predicate Layered(c: Config, chain: seq<string>, component: string, k: nat, paths: seq<Path>) {
    && (forall a :: 0 <= a < |paths| ==> First(c, chain, component, paths[a].name, 0) >= k)
    && (forall a, b :: 0 <= a < b < |paths| ==> Before(c, chain, component, paths[a], paths[b]))
  }

  /** The second loop of patch_files. */
  method OrderPatches(c: Config, chain: seq<string>, component: string, selected: map<string, Option<string>>)
    returns (ordered: seq<Path>)
    requires SelectedSo(c, chain, component, |chain|, selected)
    ensures Counted(c, chain, component, 0, ordered)
    ensures DistinctDirs(c, chain) ==> Layered(c, chain, component, 0, ordered)
  {
    hide Counted, Layered, SelectedSo, First, Less, Ascending;
    ordered := [];
    NothingCounted(c, chain, component);
    var k: nat := |chain|;
    while k > 0
      invariant k <= |chain|
      invariant Counted(c, chain, component, k, ordered)
      invariant DistinctDirs(c, chain) ==> Layered(c, chain, component, k, ordered)
    {
      k := k - 1;
      var paths;
      ghost var names;
      paths, names := PathsIn(selected, DirOf(c, chain[k]));
      CountBlock(c, chain, component, selected, k, ordered, paths, names);
      if DistinctDirs(c, chain) {
        LayerBlock(c, chain, component, selected, k, ordered, paths, names);
      }
      ordered := ordered + paths;
    }
  }

  lemma NothingCounted(c: Config, chain: seq<string>, component: string)
    ensures Counted(c, chain, component, |chain|, []) && Layered(c, chain, component, |chain|, [])
  {
  }

  ghost predicate Block(selected: map<string, Option<string>>, dir: string, paths: seq<Path>, names: seq<string>) {
    && Ascending(names) && |paths| == |names| && (forall i :: 0 <= i < |paths| ==> paths[i] == Path(dir, names[i]))
    && (forall name :: name in names <==> name in selected && selected[name] == Some(dir))
  }

  lemma {:induction false} CountOnce(paths: seq<Path>, x: Path)
    requires forall i, j :: 0 <= i < j < |paths| ==> paths[i] != paths[j]
    ensures multiset(paths)[x] == if x in paths then 1 else 0
  {
    if paths != [] {
      var n := |paths| - 1;
      CountOnce(paths[..n], x);
      assert paths == paths[..n] + [paths[n]];
    }
  }

  lemma CountBlock(c: Config, chain: seq<string>, component: string, selected: map<string, Option<string>>,
                   k: nat, ordered: seq<Path>, paths: seq<Path>, names: seq<string>)
    requires SelectedSo(c, chain, component, |chain|, selected) && k < |chain|
    requires Counted(c, chain, component, k + 1, ordered) && Block(selected, DirOf(c, chain[k]), paths, names)
    ensures Counted(c, chain, component, k, ordered + paths)
  {
    hide First, Less, Verdict;
    var dir := DirOf(c, chain[k]);
    forall i, j | 0 <= i < j < |paths| ensures paths[i] != paths[j] {
      LessIsStrict(names[i], names[j]);
    }
    forall x ensures multiset(paths)[x] == if x.dir == dir && Chosen(c, chain, component, x) then 1 else 0 {
      CountOnce(paths, x);
      if x in paths {
        var i :| 0 <= i < |paths| && paths[i] == x;
        assert names[i] in names;
      }
      if x.dir == dir && Chosen(c, chain, component, x) {
        assert x.name in names;
        var i :| 0 <= i < |names| && names[i] == x.name;
        assert paths[i] == x;
      }
    }
    forall x ensures multiset(ordered + paths)[x] == if Chosen(c, chain, component, x) then Times(c, chain, k,
        x.dir) else 0 {
      assert multiset(ordered + paths) == multiset(ordered) + multiset(paths);
    }
  }

  lemma LayerBlock(c: Config, chain: seq<string>, component: string, selected: map<string, Option<string>>,
                   k: nat, ordered: seq<Path>, paths: seq<Path>, names: seq<string>)
    requires SelectedSo(c, chain, component, |chain|, selected) && k < |chain| && DistinctDirs(c, chain)
    requires Layered(c, chain, component, k + 1, ordered) && Block(selected, DirOf(c, chain[k]), paths, names)
    ensures Layered(c, chain, component, k, ordered + paths)
  {
    hide Less;
    forall a | 0 <= a < |paths| ensures First(c, chain, component, paths[a].name, 0) == k {
      assert names[a] in names;
    }
    hide First;
    var all := ordered + paths;
    forall a, b | 0 <= a < b < |all| ensures Before(c, chain, component, all[a], all[b]) {
      if b < |ordered| {
        assert Before(c, chain, component, ordered[a], ordered[b]);
      } else if a < |ordered| {
        assert all[b] == paths[b - |ordered|];
      } else {
        assert Less(names[a - |ordered|], names[b - |ordered|]);
      }
    }
  }

  /** Of the patches of one directory, the one with the smaller name comes first. */
  ghost predicate InNameOrder(paths: seq<Path>) {
    forall a, b, k: nat :: 0 <= a < |paths| && 0 <= b < |paths| ==>
      paths[a].dir == paths[b].dir && SmallerAt(paths[a].name, paths[b].name, k) ==> a < b
  }

  lemma SmallerNameFirst(c: Config, chain: seq<string>, component: string, paths: seq<Path>, a: nat, b: nat, k: nat)
    requires Counted(c, chain, component, 0, paths) && Layered(c, chain, component, 0, paths) && DistinctDirs(c, chain)
    requires a < |paths| && b < |paths| && paths[a].dir == paths[b].dir
    requires SmallerAt(paths[a].name, paths[b].name, k)
    ensures a < b
  {
    hide Less, First, Verdict, Times;
    LessMeans(paths[a].name, paths[b].name);
    LessIsStrict(paths[a].name, paths[b].name);
    SameLayer(c, chain, component, paths, a, b);
    assert b < a ==> Before(c, chain, component, paths[b], paths[a]);
  }

  lemma SameLayer(c: Config, chain: seq<string>, component: string, paths: seq<Path>, a: nat, b: nat)
    requires Counted(c, chain, component, 0, paths) && DistinctDirs(c, chain)
    requires a < |paths| && b < |paths| && paths[a].dir == paths[b].dir
    ensures First(c, chain, component, paths[a].name, 0) == First(c, chain, component, paths[b].name, 0)
  {
    hide First, Times, DirOf, SkipNames;
    assert paths[a] in multiset(paths) && paths[b] in multiset(paths);
    assert Chosen(c, chain, component, paths[a]) && Chosen(c, chain, component, paths[b]);
  }

  /** Different spellings name different directories. */
  predicate OneSpelling(c: Config) {
    forall a, b :: a in c.place.Keys + {COMMON} && b in c.place.Keys + {COMMON} && a != b ==> DirOf(c, a) != DirOf(c, b)
  }

  /** No directory is a layer twice, if and only if inheritance does not pass
      through "common" and no directory is spelt in two ways by the layers. */
  lemma DirsDifferExactly(c: Config, board: string, n: nat)
    requires EndsAfter(c, board, n)
    ensures var chain := Ancestors(c, board, n) + [COMMON];
            && (DistinctDirs(c, chain) <==>
                  && COMMON !in Ancestors(c, board, n)
                  && forall i, j :: 0 <= i < j < |chain| && chain[i] != chain[j] ==>
                       DirOf(c, chain[i]) != DirOf(c, chain[j]))
            && (OneSpelling(c) ==> (DistinctDirs(c, chain) <==> COMMON !in Ancestors(c, board, n)))
  {
    var chain := Ancestors(c, board, n) + [COMMON];
    LayersDifferExactly(c, board, n);
    hide DirOf;
    forall i | 0 <= i < |chain| ensures chain[i] in c.place.Keys + {COMMON} {
      if i < n {
        assert chain[i] == Ancestor(c, board, i) && IsDirectory(c, chain[i]);
      }
    }
  }

  /** Without a repeated directory each selected name occurs once. */
  lemma EachNameOnce(c: Config, chain: seq<string>, component: string, paths: seq<Path>, a: nat, b: nat)
    requires Layered(c, chain, component, 0, paths) && a < b < |paths|
    ensures paths[a].name != paths[b].name
  {
    assert Before(c, chain, component, paths[a], paths[b]);
    LessIsStrict(paths[a].name, paths[b].name);
  }

  /** patch_files: each path as many times as its directory is a layer, if the
      layer of highest precedence that mentions its name provides it, and no
      other path; base layers first, names ascending, if no directory is a
      layer twice. */
  method PatchFiles(c: Config, board: string, component: string)
    returns (r: Result<seq<Path>>, ghost chain: seq<string>, ghost n: nat)
    ensures r == Err(InvalidComponent) <==> !ComponentOk(component)
    ensures ComponentOk(component) ==> (r.Ok? <==> BoardNameOk(board) && exists m :: EndsAfter(c, board, m))
    ensures r.Ok? ==>
              && EndsAfter(c, board, n) && chain == Ancestors(c, board, n) + [COMMON]
              && Counted(c, chain, component, 0, r.value)
              && (DistinctDirs(c, chain) ==> Layered(c, chain, component, 0, r.value))
    ensures r.Ok? && OneSpelling(c) && COMMON !in Ancestors(c, board, n) ==>
              && Layered(c, chain, component, 0, r.value)
              && (forall a, b :: 0 <= a < b < |r.value| ==> r.value[a].name != r.value[b].name)
              && InNameOrder(r.value)
  {
    hide Counted, Layered, SelectedSo, First, EndsAfter, BreaksAt, OneSpelling;
    chain, n := [], 0;
    if !ComponentOk(component) {
      return Err(InvalidComponent), chain, n;
    }
    var layers;
    layers, n := BoardChain(c, board);
    if layers.Err? {
      r := Err(layers.error);
      InvalidOrBroken(c, board, n, layers.error);
      return;
    }
    chain := layers.value;
    var selected := SelectPatches(c, layers.value, component);
    var ordered := OrderPatches(c, layers.value, component, selected);
    r := Ok(ordered);
    DirsDifferExactly(c, board, n);
    if DistinctDirs(c, chain) {
      forall a, b | 0 <= a < b < |ordered| ensures ordered[a].name != ordered[b].name {
        EachNameOnce(c, chain, component, ordered, a, b);
      }
      forall a, b, k: nat | 0 <= a < |ordered| && 0 <= b < |ordered| && ordered[a].dir == ordered[b].dir
                            && SmallerAt(ordered[a].name, ordered[b].name, k) ensures a < b {
        SmallerNameFirst(c, chain, component, ordered, a, b, k);
      }
    }
  }

  lemma InvalidOrBroken(c: Config, board: string, n: nat, e: Error)
    requires e == InvalidBoard || BreaksAt(c, board, n, e)
    ensures e != InvalidComponent
  {
  }

  /** No path is listed twice, if and only if no chosen patch lies in a directory
      that is a layer twice. */
  lemma NoDuplicatesExactly(c: Config, chain: seq<string>, component: string, paths: seq<Path>)
    requires Counted(c, chain, component, 0, paths)
    ensures (forall x :: multiset(paths)[x] <= 1)
       <==> (forall x :: Chosen(c, chain, component, x) ==> Times(c, chain, 0, x.dir) <= 1)
  {
    hide Chosen, Times;
    if forall x :: multiset(paths)[x] <= 1 {
      forall x | Chosen(c, chain, component, x) ensures Times(c, chain, 0, x.dir) <= 1 {
        assert multiset(paths)[x] <= 1;
      }
    }
  }

  /** A board whose BASE_BOARD is "common", and one patch there. */
  function CommonAsBase(): Config {
    Config(map["b" := "b", COMMON := COMMON],
           map["b" := Layer(COMMON, map[], map[]), COMMON := Layer("", map["linux" := {"p.patch"}], map[])])
  }

  /** The patch is listed twice. */
  lemma CommonAsBaseDuplicates(paths: seq<Path>)
    requires Counted(CommonAsBase(), ["b", COMMON, COMMON], "linux", 0, paths)
    ensures EndsAfter(CommonAsBase(), "b", 2) && Ancestors(CommonAsBase(), "b", 2) + [COMMON] == ["b", COMMON, COMMON]
    ensures multiset(paths)[Path(COMMON, "p.patch")] == 2
  {
    var c := CommonAsBase();
    var chain := ["b", COMMON, COMMON];
    assert Ancestor(c, "b", 0) == "b" && Ancestor(c, "b", 1) == COMMON && Ancestor(c, "b", 2) == "";
    assert Ancestors(c, "b", 1) == ["b"];
    assert !Mentions(c, "b", "linux", "p.patch") && Mentions(c, COMMON, "linux", "p.patch");
    assert First(c, chain, "linux", "p.patch", 0) == 1;
    assert Chosen(c, chain, "linux", Path(COMMON, "p.patch"));
    assert Times(c, chain, 2, COMMON) == 1 && Times(c, chain, 1, COMMON) == 2;
  }
}
