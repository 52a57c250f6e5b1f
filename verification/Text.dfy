/** String helpers shared by the models: options, splitting and joining on one character. */
module Text {

  datatype Option<+T> = None | Some(value: T) {
    function GetOr(default: T): T {
      match this
      case Some(v) => v
      case None => default
    }
  }

  /** The pieces of s between the occurrences of sep: PHP's explode, Go's strings.Split. */
  function Split(s: string, sep: char): (r: seq<string>)
    ensures |r| >= 1
  {
    if s == "" then [""]
    else
      var rest := Split(s[1..], sep);
      if s[0] == sep then [""] + rest else [[s[0]] + rest[0]] + rest[1..]
  }

  /** The pieces glued with sep between them: Go's strings.Join, Python's str.join. */
  function Join(parts: seq<string>, sep: string): string {
    if |parts| == 0 then ""
    else if |parts| == 1 then parts[0]
    else parts[0] + sep + Join(parts[1..], sep)
  }

  lemma {:induction false} SplitNone(s: string, sep: char)
    requires sep !in s
    ensures Split(s, sep) == [s]
  {
    if s != "" {
      SplitNone(s[1..], sep);
      assert [s[0]] + s[1..] == s;
    }
  }

  lemma {:induction false} SplitFirst(p: string, rest: string, sep: char)
    requires sep !in p
    ensures Split(p + [sep] + rest, sep) == [p] + Split(rest, sep)
  {
    var s := p + [sep] + rest;
    if p == "" {
      assert s[1..] == rest;
    } else {
      assert s[1..] == p[1..] + [sep] + rest;
      SplitFirst(p[1..], rest, sep);
      assert [p[0]] + p[1..] == p;
      assert ([p[1..]] + Split(rest, sep))[1..] == Split(rest, sep);
    }
  }

  /** Splitting undoes joining when no piece holds the separator. */
  lemma {:induction false} SplitJoin(parts: seq<string>, sep: char)
    requires |parts| > 0 && forall p <- parts :: sep !in p
    ensures Split(Join(parts, [sep]), sep) == parts
  {
    if |parts| == 1 {
      assert parts[0] in parts;
      SplitNone(parts[0], sep);
    } else {
      assert parts[0] in parts && forall p <- parts[1..] :: p in parts;
      SplitFirst(parts[0], Join(parts[1..], [sep]), sep);
      SplitJoin(parts[1..], sep);
      JoinTwo(parts, [sep]);
      assert [parts[0]] + parts[1..] == parts;
    }
  }

  lemma JoinTwo(parts: seq<string>, sep: string)
    requires |parts| > 1
    ensures Join(parts, sep) == parts[0] + sep + Join(parts[1..], sep)
  {
  }

  lemma Assoc<T>(a: seq<T>, b: seq<T>, c: seq<T>)
    ensures a + (b + c) == a + b + c
  {
  }

  lemma Unit<T>(a: seq<T>)
    ensures a + [] == a && [] + a == a
  {
  }

  /** There is always another text. */
  lemma FreshText(used: set<string>) returns (s: string)
    ensures s !in used
  {
    var n := LongestOf(used);
    s := seq(n + 1, _ => 'g');
  }

  lemma {:induction false} LongestOf(used: set<string>) returns (n: nat)
    ensures forall x <- used :: |x| <= n
  {
    if used == {} { return 0; }
    var x :| x in used;
    var m := LongestOf(used - {x});
    n := if m < |x| then |x| else m;
  }

  // ---- Places in a sequence ----

  predicate Increasing(at: seq<nat>) { forall i, j :: 0 <= i < j < |at| ==> at[i] < at[j] }

  /** The same places when one element more is in front. */
  function Shifted(at: seq<nat>): (r: seq<nat>)
    ensures |r| == |at| && forall i :: 0 <= i < |r| ==> r[i] == at[i] + 1
  {
    seq(|at|, i requires 0 <= i < |at| => at[i] + 1)
  }

  lemma ShiftedHas(at: seq<nat>, k: nat)
    ensures k + 1 in Shifted(at) <==> k in at
  {
    if k in at {
      var i :| 0 <= i < |at| && at[i] == k;
      assert Shifted(at)[i] == k + 1;
    }
  }

  lemma ShiftedFront(at: seq<nat>)
    requires Increasing(at)
    ensures Increasing(Shifted(at)) && Increasing([0] + Shifted(at))
  {
  }

  /** some is what all has at these places. */
  predicate Picks<T(==)>(all: seq<T>, some: seq<T>, at: seq<nat>) {
    |at| == |some| && forall i :: 0 <= i < |at| ==> at[i] < |all| && some[i] == all[at[i]]
  }

  lemma PicksLater<T>(all: seq<T>, some: seq<T>, at: seq<nat>)
    requires all != [] && Picks(all[1..], some, at)
    ensures Picks(all, some, Shifted(at))
  {
    forall i | 0 <= i < |at| ensures Shifted(at)[i] < |all| && some[i] == all[Shifted(at)[i]] {
      assert all[1..][at[i]] == all[at[i] + 1];
    }
  }

  lemma PicksFirst<T>(all: seq<T>, some: seq<T>, at: seq<nat>)
    requires all != [] && Picks(all, some, at)
    ensures Picks(all, [all[0]] + some, [0] + at)
  {
  }
}
