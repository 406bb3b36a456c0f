/**
  Whether a Rust file holds nothing but explicitly gated test modules.  The regular expressions are
  parameters: where gates match, what module declaration follows a gate, and what is suspicious in
  the text that remains.
*/
module RustGate {
  import opened Prelude
  import opened RustMask
  import Laws = RustMaskLaws

  datatype Gate = Gate(start: nat, end: nat)

  /** A module declaration at the front of a text: where it ends, and whether it opened a block. */
  datatype Declaration = Declaration(end: nat, block: bool)

  datatype Patterns = Patterns(gates: string -> seq<Gate>, declaration: string -> Option<Declaration>,
                               suspicious: string -> bool)

  /** Matches lie within the text they match. */
  ghost predicate WithinText(p: Patterns) {
    && (forall s, g :: g in p.gates(s) ==> g.start <= g.end <= |s|)
    && (forall t :: p.declaration(t).Some? ==> p.declaration(t).value.end <= |t|)
  }

  const ATTRIBUTE := "#[cfg"

  predicate Visible(m: string, g: Gate) {
    g.start + |ATTRIBUTE| <= |m| && m[g.start..g.start + |ATTRIBUTE|] == ATTRIBUTE
  }

  function Delta(c: char): int { if c == '{' then 1 else if c == '}' then -1 else 0 }

  /** Just past where `depth` open braces are closed. */
  function BraceEnd(m: string, at: nat, depth: nat): (end: Option<nat>)
    requires at <= |m|
    ensures end.Some? ==> at <= end.value <= |m|
    decreases |m| - at
  {
    if depth == 0 then Some(at) else if at == |m| then None else BraceEnd(m, at + 1, depth + Delta(m[at]))
  }

  /** The end of the module a gate declares, unless what follows the gate is no module or its block never closes. */
  function ModuleEnd(m: string, g: Gate, p: Patterns): (end: Option<nat>)
    requires WithinText(p) && g.end <= |m|
    ensures end.Some? ==> g.end <= end.value <= |m|
  {
    match p.declaration(m[g.end..])
    case None => None
    case Some(d) => if d.block then BraceEnd(m, g.end + d.end, 1) else Some(g.end + d.end)
  }

  /** The position belongs to a gated module. */
  predicate Gated(m: string, gates: seq<Gate>, p: Patterns, i: nat)
    requires WithinText(p) && forall g :: g in gates ==> g.end <= |m|
  {
    exists g :: g in gates && Visible(m, g) && ModuleEnd(m, g, p).Some? && g.start <= i < ModuleEnd(m, g, p).value
  }

  /** The masked text with every gated module blanked. */
  function Remaining(m: string, gates: seq<Gate>, p: Patterns): (r: string)
    requires WithinText(p) && forall g :: g in gates ==> g.end <= |m|
    ensures |r| == |m| && forall i :: 0 <= i < |m| ==> r[i] == if Gated(m, gates, p, i) then ' ' else m[i]
  {
    seq(|m|, i requires 0 <= i < |m| => if Gated(m, gates, p, i) then ' ' else m[i])
  }

  predicate SomeVisible(m: string, gates: seq<Gate>) { exists g :: g in gates && Visible(m, g) }

  predicate AllModules(m: string, gates: seq<Gate>, p: Patterns)
    requires WithinText(p) && forall g :: g in gates ==> g.end <= |m|
  {
    forall g :: g in gates && Visible(m, g) ==> ModuleEnd(m, g, p).Some?
  }

  /**
    The whole condition: some gate is code, each gate that is code stands before a module that closes,
    and outside those modules nothing is suspicious.
  */
  predicate OnlyGatedModules(m: string, gates: seq<Gate>, p: Patterns)
    requires WithinText(p) && forall g :: g in gates ==> g.end <= |m|
  {
    && SomeVisible(m, gates) && AllModules(m, gates, p)
    && !p.suspicious(Remaining(m, gates, p))
  }

  method CloseBlock(m: string, from: nat) returns (end: nat, closed: bool)
    requires from <= |m|
    ensures BraceEnd(m, from, 1) == if closed then Some(end) else None
  {
    var depth := 1;
    end := from;
    while depth > 0 && end < |m|
      invariant depth >= 0 && from <= end <= |m| && BraceEnd(m, from, 1) == BraceEnd(m, end, depth)
      decreases |m| - end
    {
      depth := depth + Delta(m[end]);
      end := end + 1;
    }
    closed := depth == 0;
  }

  /** True, false, or none where masking fails. */
  method CrateOnly(source: string, p: Patterns) returns (r: Option<bool>)
    requires WithinText(p)
    ensures r.None? <==> Mask(source).Err?
    ensures r.Some? ==>
      |Mask(source).text| == |source| && r.value == OnlyGatedModules(Mask(source).text, p.gates(source), p)
  {
    hide Mask, Visible, ModuleEnd, Gated, Remaining, OnlyGatedModules, BraceEnd, SomeVisible, AllModules;
    var masked := MaskRust(source);
    if masked.Err? {
      return None;
    }
    Laws.MaskKeepsShape(source);
    var m, gates := masked.text, p.gates(source);
    var retained := Characters(m);
    NothingGated(m, p);
    var found := false;
    var k := 0;
    while k < |gates|
      invariant 0 <= k <= |gates|
      invariant found <==> SomeVisible(m, gates[..k])
      invariant AllModules(m, gates[..k], p)
      invariant retained[..] == Remaining(m, gates[..k], p)
    {
      var gate := gates[k];
      NextGate(m, gates, p, k);
      k := k + 1;
      if !Visible(m, gate) {
        continue;
      }
      var end := DeclaredEnd(m, gate, p);
      if end.None? {
        NotAllModules(m, gates, p, gate);
        return Some(false);
      }
      BlankRange(retained, gate.start, end.value);
      found := true;
    }
    assert gates[..k] == gates;
    Verdict(m, gates, p, found);
    r := Some(found && !p.suspicious(retained[..]));
  }

  method Characters(s: string) returns (a: array<char>)
    ensures fresh(a) && a[..] == s
  {
    a := new char[|s|](i requires 0 <= i < |s| => s[i]);
  }

  method DeclaredEnd(m: string, gate: Gate, p: Patterns) returns (end: Option<nat>)
    requires WithinText(p) && gate.end <= |m|
    ensures end == ModuleEnd(m, gate, p)
  {
    hide BraceEnd;
    var declaration := p.declaration(m[gate.end..]);
    if declaration.None? {
      return None;
    }
    end := Some(gate.end + declaration.value.end);
    if declaration.value.block {
      var e, closed := CloseBlock(m, end.value);
      end := if closed then Some(e) else None;
    }
  }

  method BlankRange(retained: array<char>, from: nat, to: nat)
    requires from <= to <= retained.Length
    modifies retained
    ensures retained[..] == Without(old(retained[..]), from, to)
  {
    for i := from to to
      invariant forall j :: 0 <= j < retained.Length ==> retained[j] == if from <= j < i then ' ' else old(retained[j])
    {
      retained[i] := ' ';
    }
  }

  function Without(s: string, from: nat, to: nat): (r: string)
    ensures |r| == |s| && forall i :: 0 <= i < |s| ==> r[i] == if from <= i < to then ' ' else s[i]
  {
    seq(|s|, i requires 0 <= i < |s| => if from <= i < to then ' ' else s[i])
  }

  lemma NothingGated(m: string, p: Patterns)
    requires WithinText(p)
    ensures Remaining(m, [], p) == m && !SomeVisible(m, []) && AllModules(m, [], p)
  {
  }

  lemma NextGate(m: string, gates: seq<Gate>, p: Patterns, k: nat)
    requires WithinText(p) && k < |gates| && forall g :: g in gates ==> g.start <= g.end <= |m|
    ensures forall g :: g in gates[..k + 1] ==> g in gates
    ensures SomeVisible(m, gates[..k + 1]) <==> SomeVisible(m, gates[..k]) || Visible(m, gates[k])
    ensures AllModules(m, gates[..k + 1], p) <==>
      AllModules(m, gates[..k], p) && (Visible(m, gates[k]) ==> ModuleEnd(m, gates[k], p).Some?)
    ensures Remaining(m, gates[..k + 1], p) ==
      if Visible(m, gates[k]) && ModuleEnd(m, gates[k], p).Some?
      then Without(Remaining(m, gates[..k], p), gates[k].start, ModuleEnd(m, gates[k], p).value)
      else Remaining(m, gates[..k], p)
  {
    hide Visible, ModuleEnd, Remaining, Gated;
    RemainingNext(m, gates, p, k);
  }

  lemma RemainingNext(m: string, gates: seq<Gate>, p: Patterns, k: nat)
    requires WithinText(p) && k < |gates| && forall g :: g in gates ==> g.start <= g.end <= |m|
    ensures forall g :: g in gates[..k + 1] <==> g in gates[..k] || g == gates[k]
    ensures Remaining(m, gates[..k + 1], p) ==
      if Visible(m, gates[k]) && ModuleEnd(m, gates[k], p).Some?
      then Without(Remaining(m, gates[..k], p), gates[k].start, ModuleEnd(m, gates[k], p).value)
      else Remaining(m, gates[..k], p)
  {
    hide Visible, ModuleEnd;
    assert gates[..k + 1] == gates[..k] + [gates[k]];
    assert forall i: nat :: Gated(m, gates[..k + 1], p, i) <==>
      Gated(m, gates[..k], p, i) || Gated(m, [gates[k]], p, i);
  }

  lemma NotAllModules(m: string, gates: seq<Gate>, p: Patterns, g: Gate)
    requires WithinText(p) && forall x :: x in gates ==> x.end <= |m|
    requires g in gates && Visible(m, g) && ModuleEnd(m, g, p).None?
    ensures !OnlyGatedModules(m, gates, p)
  {
  }

  lemma Verdict(m: string, gates: seq<Gate>, p: Patterns, found: bool)
    requires WithinText(p) && forall x :: x in gates ==> x.end <= |m|
    requires (found <==> SomeVisible(m, gates)) && AllModules(m, gates, p)
    ensures OnlyGatedModules(m, gates, p) <==> found && !p.suspicious(Remaining(m, gates, p))
  {
  }

  // ---------------------------------------------------------------- where a block closes

  function Depth(m: string, from: nat, to: nat): int
    requires from <= to <= |m|
  {
    if from == to then 0 else Depth(m, from, to - 1) + Delta(m[to - 1])
  }

  lemma {:induction false} DepthShift(m: string, from: nat, to: nat)
    requires from < to <= |m|
    ensures Depth(m, from, to) == Delta(m[from]) + Depth(m, from + 1, to)
  {
    if from + 1 < to {
      DepthShift(m, from, to - 1);
    }
  }

  /** At least one brace stays open all the way from `from` to before `end`. */
  predicate OpenUntil(m: string, from: nat, depth: int, end: nat)
    requires from <= end <= |m|
  {
    forall k :: from <= k < end ==> depth + Depth(m, from, k) > 0
  }

  lemma OpenShift(m: string, at: nat, depth: int, end: nat)
    requires at < end <= |m|
    ensures OpenUntil(m, at, depth, end) <==> depth > 0 && OpenUntil(m, at + 1, depth + Delta(m[at]), end)
  {
    assert Depth(m, at, at) == 0;
    if OpenUntil(m, at, depth, end) {
      var next := at + 1;
      forall k | next <= k < end ensures depth + Delta(m[at]) + Depth(m, next, k) > 0 {
        DepthShift(m, at, k);
      }
    }
    if depth > 0 && OpenUntil(m, at + 1, depth + Delta(m[at]), end) {
      forall k | at <= k < end ensures depth + Depth(m, at, k) > 0 {
        if k > at {
          DepthShift(m, at, k);
        }
      }
    }
  }

  /** The block closes at the first point where as many braces have closed as are open. */
  lemma {:induction false} BlockClosesFirst(m: string, at: nat, depth: nat, end: nat)
    requires at <= end <= |m|
    ensures BraceEnd(m, at, depth) == Some(end) <==> depth + Depth(m, at, end) == 0 && OpenUntil(m, at, depth, end)
    decreases end - at
  {
    if at < end {
      OpenShift(m, at, depth, end);
      DepthShift(m, at, end);
      if depth > 0 {
        BlockClosesFirst(m, at + 1, depth + Delta(m[at]), end);
      }
    }
  }

  // ---------------------------------------------------------------- said of the characters

  /** The positions from `from` up to `to` that hold `c`. */
  function Places(m: string, from: nat, to: nat, c: char): set<int>
    requires from <= to <= |m|
  {
    set i | from <= i < to && m[i] == c
  }

  lemma PlacesNext(m: string, from: nat, to: nat, c: char)
    requires from < to <= |m|
    ensures |Places(m, from, to, c)| == |Places(m, from, to - 1, c)| + if m[to - 1] == c then 1 else 0
  {
    var init := Places(m, from, to - 1, c);
    assert Places(m, from, to, c) == if m[to - 1] == c then init + {to - 1} else init;
  }

  lemma {:induction false} DepthIsBraces(m: string, from: nat, to: nat)
    requires from <= to <= |m|
    ensures Depth(m, from, to) == |Places(m, from, to, '{')| - |Places(m, from, to, '}')|
  {
    if from == to {
      assert Places(m, from, to, '{') == {} && Places(m, from, to, '}') == {};
    } else {
      DepthIsBraces(m, from, to - 1);
      PlacesNext(m, from, to, '{');
      PlacesNext(m, from, to, '}');
    }
  }

  /** `end` is the first point by which `depth` more braces have closed than opened. */
  predicate ClosesAt(m: string, at: nat, depth: nat, end: nat)
    requires at <= end <= |m|
  {
    && |Places(m, at, end, '}')| == |Places(m, at, end, '{')| + depth
    && forall k :: at <= k < end ==> |Places(m, at, k, '}')| < |Places(m, at, k, '{')| + depth
  }

  /** A block ends where the braces that closed since its start first outnumber those that opened by its depth. */
  lemma BlockEndsAtItsBrace(m: string, at: nat, depth: nat, end: nat)
    requires at <= end <= |m|
    ensures BraceEnd(m, at, depth) == Some(end) <==> ClosesAt(m, at, depth, end)
  {
    hide BraceEnd;
    BlockClosesFirst(m, at, depth, end);
    DepthIsBraces(m, at, end);
    forall k | at <= k < end
      ensures depth + Depth(m, at, k) > 0 <==> |Places(m, at, k, '}')| < |Places(m, at, k, '{')| + depth
    {
      DepthIsBraces(m, at, k);
    }
  }

  predicate IsGate(m: string, g: Gate) { g.start + 5 <= |m| && m[g.start..g.start + 5] == "#[cfg" }

  /** A gate is followed by a module declaration, which is all of the module or opens the block that ends at `end`. */
  predicate EndsAt(m: string, g: Gate, p: Patterns, end: nat)
    requires WithinText(p) && g.end <= |m|
  {
    p.declaration(m[g.end..]).Some?
    && var from := g.end + p.declaration(m[g.end..]).value.end;
      if p.declaration(m[g.end..]).value.block then from <= end <= |m| && ClosesAt(m, from, 1, end) else end == from
  }

  lemma EndsExactly(m: string, g: Gate, p: Patterns, end: nat)
    requires WithinText(p) && g.end <= |m|
    ensures ModuleEnd(m, g, p) == Some(end) <==> EndsAt(m, g, p, end)
  {
    hide ClosesAt, BraceEnd;
    if p.declaration(m[g.end..]).Some? {
      var from := g.end + p.declaration(m[g.end..]).value.end;
      if from <= end <= |m| {
        BlockEndsAtItsBrace(m, from, 1, end);
      }
    }
  }

  /** Position `i` is in a module behind a gate. */
  ghost predicate BehindGate(m: string, gates: seq<Gate>, p: Patterns, i: int)
    requires WithinText(p) && forall g :: g in gates ==> g.end <= |m|
  {
    exists g, end: nat :: g in gates && IsGate(m, g) && EndsAt(m, g, p, end) && g.start <= i < end
  }

  /**
    The verdict is yes exactly if there is a `#[cfg` that survived masking, each is followed by a module
    that ends, and the rest of the text, those modules blanked, is not suspicious.
  */
  lemma CrateOnlyExactly(m: string, gates: seq<Gate>, p: Patterns, rest: string)
    requires WithinText(p) && forall g :: g in gates ==> g.end <= |m|
    requires |rest| == |m|
    requires forall i :: 0 <= i < |m| ==> rest[i] == if BehindGate(m, gates, p, i) then ' ' else m[i]
    ensures OnlyGatedModules(m, gates, p) <==>
      && (exists g :: g in gates && IsGate(m, g))
      && (forall g :: g in gates && IsGate(m, g) ==> exists end: nat :: EndsAt(m, g, p, end))
      && !p.suspicious(rest)
  {
    hide ModuleEnd, EndsAt;
    assert forall g :: IsGate(m, g) <==> Visible(m, g);
    hide IsGate, Visible;
    forall g, end: nat | g in gates ensures ModuleEnd(m, g, p) == Some(end) <==> EndsAt(m, g, p, end) {
      EndsExactly(m, g, p, end);
    }
    forall i | 0 <= i < |m| ensures rest[i] == Remaining(m, gates, p)[i] {
      GatedExactly(m, gates, p, i);
    }
    assert rest == Remaining(m, gates, p);
    forall g | g in gates ensures ModuleEnd(m, g, p).Some? <==> exists end: nat :: EndsAt(m, g, p, end) {
      if ModuleEnd(m, g, p).Some? {
        assert EndsAt(m, g, p, ModuleEnd(m, g, p).value);
      }
    }
  }

  lemma GatedExactly(m: string, gates: seq<Gate>, p: Patterns, i: nat)
    requires WithinText(p) && forall g :: g in gates ==> g.end <= |m|
    requires forall g, end: nat :: g in gates ==> (ModuleEnd(m, g, p) == Some(end) <==> EndsAt(m, g, p, end))
    ensures Gated(m, gates, p, i) <==> BehindGate(m, gates, p, i)
  {
    hide ModuleEnd, EndsAt;
    assert forall g :: IsGate(m, g) <==> Visible(m, g);
    if Gated(m, gates, p, i) {
      var g :| g in gates && Visible(m, g) && ModuleEnd(m, g, p).Some? && g.start <= i < ModuleEnd(m, g, p).value;
      assert EndsAt(m, g, p, ModuleEnd(m, g, p).value);
    }
  }
}
