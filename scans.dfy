/** The four candidate scans of the resolver. Each walks a source's candidate
    list in order and stops at the first candidate of its kind that the host
    backs, or at a literal false. The two method scans (over `values` and over
    `relations`) share one kind; the field scan and the relation-name scan
    have their own. */
module Scans {
  import opened Php
  import opened Host

  /** A scan's three-way answer: a name, `false` (deliberately disabled), or
      null (nothing configured or nothing matched). */
  datatype Binding = NotFound | Disabled | Found(name: string)

  datatype BindingKind = MethodBinding | FieldBinding | RelationBinding

  /** A candidate that starts with `->` names a method. */
  predicate IsArrow(s: string) {
    |s| >= 2 && s[..2] == "->"
  }

  /** What the host must offer for a name to be bound: a method; a field that
      is not also a relation; a declared relation. */
  predicate Backs(kind: BindingKind, name: string, rec: Record) {
    match kind
    case MethodBinding => name in rec.methods
    case FieldBinding => name in rec.fields && name !in rec.relations
    case RelationBinding => name in rec.relations
  }

  /** The name a candidate binds when it has the scanned kind's form and the
      host backs it; a method candidate binds the name after its `->`. */
  function Match(kind: BindingKind, v: Value, rec: Record): (n: Option<string>)
    ensures n.Some? ==> v.Str? && Backs(kind, n.value, rec)
    ensures n.Some? && kind == MethodBinding ==> IsArrow(v.s) && n.value == v.s[2..]
    ensures n.Some? && kind != MethodBinding ==> !IsArrow(v.s) && n.value == v.s
    ensures v.Str? && kind == MethodBinding && IsArrow(v.s) && Backs(kind, v.s[2..], rec) ==> n == Some(v.s[2..])
    ensures v.Str? && kind != MethodBinding && !IsArrow(v.s) && Backs(kind, v.s, rec) ==> n == Some(v.s)
  {
    if !v.Str? then None
    else match kind
      case MethodBinding => if IsArrow(v.s) && Backs(kind, v.s[2..], rec) then Some(v.s[2..]) else None
      case _ => if !IsArrow(v.s) && Backs(kind, v.s, rec) then Some(v.s) else None
  }

  /** A candidate at which the scan ends. */
  predicate Stops(kind: BindingKind, v: Value, rec: Record) {
    Match(kind, v, rec).Some? || v == Bool(false)
  }

  /** The scan over a candidate list. */
  function ScanCandidates(kind: BindingKind, cands: seq<Value>, rec: Record): (r: Binding)
    ensures r.Found? ==> Backs(kind, r.name, rec)
  {
    if cands == [] then NotFound
    else match Match(kind, cands[0], rec)
      case Some(n) => Found(n)
      case None => if cands[0] == Bool(false) then Disabled else ScanCandidates(kind, cands[1..], rec)
  }

  /** `$keys[$source] ?? null`, wrapped in a list unless it is one already. */
  function CandidateList(section: Value, source: string): seq<Value> {
    var v := if section.Arr? then Get(section.entries, NormKey(source)) else Null;
    if v.Arr? then Values(v.entries) else [v]
  }

  /** The first stopping candidate decides the scan: a match gives its name,
      a false gives `Disabled`; with no stopping candidate the scan finds
      nothing. */
  lemma {:induction false} FirstStopDecides(kind: BindingKind, cands: seq<Value>, rec: Record)
    ensures ScanCandidates(kind, cands, rec) == NotFound <==> forall i | 0 <= i < |cands| :: !Stops(kind, cands[i], rec)
    ensures forall i | 0 <= i < |cands| && Stops(kind, cands[i], rec) && (forall j | 0 <= j < i :: !Stops(kind, cands[j], rec)) ::
              ScanCandidates(kind, cands, rec)
              == if Match(kind, cands[i], rec).Some? then Found(Match(kind, cands[i], rec).value) else Disabled
  {
    if cands != [] {
      FirstStopDecides(kind, cands[1..], rec);
      var rest := cands[1..];
      if !Stops(kind, cands[0], rec) {
        assert ScanCandidates(kind, cands, rec) == ScanCandidates(kind, rest, rec);
        forall i | 1 <= i < |cands| ensures cands[i] == rest[i - 1] { }
        assert (forall i | 0 <= i < |cands| :: !Stops(kind, cands[i], rec))
           <==> (forall i | 0 <= i < |rest| :: !Stops(kind, rest[i], rec));
        forall i | 0 <= i < |cands| && Stops(kind, cands[i], rec) && (forall j | 0 <= j < i :: !Stops(kind, cands[j], rec))
          ensures ScanCandidates(kind, cands, rec)
               == if Match(kind, cands[i], rec).Some? then Found(Match(kind, cands[i], rec).value) else Disabled
        {
          assert i >= 1 && rest[i - 1] == cands[i];
          forall j | 0 <= j < i - 1 ensures !Stops(kind, rest[j], rec) {
            assert rest[j] == cands[j + 1];
          }
        }
      }
    }
  }

  /** The first candidate of the scanned form that the host backs is found,
      unless a `false` comes before it. */
  lemma FirstBackedCandidateIsFound(kind: BindingKind, cands: seq<Value>, rec: Record, i: nat)
    requires i < |cands| && cands[i].Str?
    requires kind == MethodBinding ==> IsArrow(cands[i].s) && Backs(kind, cands[i].s[2..], rec)
    requires kind != MethodBinding ==> !IsArrow(cands[i].s) && Backs(kind, cands[i].s, rec)
    requires forall j | 0 <= j < i :: !Stops(kind, cands[j], rec)
    ensures ScanCandidates(kind, cands, rec) == Found(if kind == MethodBinding then cands[i].s[2..] else cands[i].s)
  {
    FirstStopDecides(kind, cands, rec);
  }

  /** The loop each of the four scans runs: reassign the current candidate,
      stop at a match or at false, otherwise clear it and go on. */
  method ScanLoop(kind: BindingKind, cands: seq<Value>, rec: Record) returns (r: Binding)
    ensures r == ScanCandidates(kind, cands, rec)
  {
    r := NotFound;
    var i := 0;
    while i < |cands|
      invariant 0 <= i <= |cands|
      invariant ScanCandidates(kind, cands, rec) == ScanCandidates(kind, cands[i..], rec)
    {
      assert cands[i..][1..] == cands[i + 1..];
      var hit := Match(kind, cands[i], rec);
      if hit.Some? {
        r := Found(hit.value);
        return;
      } else if cands[i] == Bool(false) {
        r := Disabled;
        return;
      }
      i := i + 1;
    }
  }
}
