/**
 When a compaction pass skips (internal/compaction/compaction.go): the cheap decision from object
 names and listed sizes, and the decision of the loop that reads and decodes every object.
 */
module Compaction {
  import opened Bytes
  import opened SegmentNames

  const HEADER_SIZE := 44

  /** A decoded segment; `id` stands for its identity and `size` for its stored length. */
  datatype Part = Part(snapshot: bool, start: nat, end: nat, id: nat, size: nat)

  /** An object of the level-0 chain: None when it cannot be read, split or decoded. */
  datatype Object = Object(key: string, parts: Option<seq<Part>>)

  datatype Options = Options(minSegments: int, minBytes: int, minObjects: int)

  datatype Verdict = Failed | NoBaseline | AlreadyCompacted | BelowThreshold(inputs: nat, bytes: nat) | Fold

  /** The part of a key after its last slash. */
  function BaseName(key: string): string
  {
    if key == [] || key[|key| - 1] == '/' then []
    else BaseName(key[..|key| - 1]) + [key[|key| - 1]]
  }

  function NameOf(key: string): Option<Covered> { Recognize(BaseName(key)) }

  /** A recognized name that ends above the manifest's watermark. */
  predicate NewName(key: string, floor: nat) { NameOf(key).Some? && NameOf(key).value.end > floor }

  // ------------------------------------------------------------------ the decode path

  predicate IsNew(p: Part, man: Option<nat>) { man.None? || p.end > man.value }

  /** The new ones among the first n segments of an object. */
  function NewParts(parts: seq<Part>, n: nat, man: Option<nat>): seq<Part>
    requires n <= |parts|
  {
    if n == 0 then []
    else if IsNew(parts[n - 1], man) then NewParts(parts, n - 1, man) + [parts[n - 1]]
    else NewParts(parts, n - 1, man)
  }

  function NewIn(o: Object, man: Option<nat>): seq<Part>
    requires o.parts.Some?
  {
    NewParts(o.parts.value, |o.parts.value|, man)
  }

  predicate Decodes(objs: seq<Object>) { forall i | 0 <= i < |objs| :: objs[i].parts.Some? }

  /** All segments above the watermark in the first n objects, in reading order, repeats included. */
  function AllNew(objs: seq<Object>, n: nat, man: Option<nat>): seq<Part>
    requires n <= |objs| && forall i | 0 <= i < n :: objs[i].parts.Some?
  {
    if n == 0 then [] else AllNew(objs, n - 1, man) + NewIn(objs[n - 1], man)
  }

  function NewObjects(objs: seq<Object>, n: nat, man: Option<nat>): nat
    requires n <= |objs| && forall i | 0 <= i < n :: objs[i].parts.Some?
  {
    if n == 0 then 0 else NewObjects(objs, n - 1, man) + if NewIn(objs[n - 1], man) == [] then 0 else 1
  }

  function Ids(ps: seq<Part>): set<nat> { set p <- ps :: p.id }

  /** The first of each identity. */
  function Dedup(ps: seq<Part>): (r: seq<Part>)
  {
    if ps == [] then []
    else
      var front, last := ps[..|ps| - 1], ps[|ps| - 1];
      Dedup(front) + if last.id in Ids(front) then [] else [last]
  }

  function Size(ps: seq<Part>): nat
  {
    if ps == [] then 0 else Size(ps[..|ps| - 1]) + ps[|ps| - 1].size
  }

  predicate HasSnapshot(ps: seq<Part>) { exists p <- ps :: p.snapshot }

  predicate Below(segments: nat, bytes: nat, objects: nat, opts: Options)
  {
    segments < opts.minSegments && bytes < opts.minBytes && (opts.minObjects <= 0 || objects < opts.minObjects)
  }

  /** The decision of the decode path. */
  function Slow(objs: seq<Object>, man: Option<nat>, opts: Options): Verdict
  {
    if !Decodes(objs) then Failed
    else
      var segs := Dedup(AllNew(objs, |objs|, man));
      if man.None? && !HasSnapshot(segs) then NoBaseline
      else if segs == [] && man.Some? then AlreadyCompacted
      else if Below(|segs|, Size(segs), NewObjects(objs, |objs|, man), opts) then BelowThreshold(|segs|, Size(segs))
      else Fold
  }

  lemma DedupStep(ps: seq<Part>, p: Part)
    ensures Dedup(ps + [p]) == Dedup(ps) + if p.id in Ids(ps) then [] else [p]
    ensures Ids(ps + [p]) == Ids(ps) + {p.id}
  {
    var all := ps + [p];
    assert all[..|all| - 1] == ps;
    assert p in all && forall x <- ps :: x in all;
  }

  lemma SizeStep(ps: seq<Part>, p: Part)
    ensures Size(ps + [p]) == Size(ps) + p.size
  {
    assert (ps + [p])[..|ps|] == ps;
  }

  /** The inner loop: the segments of one object. */
  method DecodeObject(parts: seq<Part>, man: Option<nat>, segs: seq<Part>, seen: set<nat>, bytes: nat, ghost all: seq<Part>)
    returns (segs': seq<Part>, seen': set<nat>, bytes': nat, hasNew: bool)
    requires segs == Dedup(all) && seen == Ids(all) && bytes == Size(segs)
    ensures var all' := all + NewParts(parts, |parts|, man);
            && segs' == Dedup(all') && seen' == Ids(all') && bytes' == Size(segs')
            && (hasNew <==> NewParts(parts, |parts|, man) != [])
  {
    segs', seen', bytes', hasNew := segs, seen, bytes, false;
    var i := 0;
    StartStep(all, parts, man);
    hide Dedup, Ids, Size, NewParts, Done;
    while i < |parts|
      invariant 0 <= i <= |parts|
      invariant segs' == Dedup(Done(all, parts, i, man)) && seen' == Ids(Done(all, parts, i, man))
      invariant bytes' == Size(segs') && (hasNew <==> NewParts(parts, i, man) != [])
    {
      var p := parts[i];
      if man.None? || p.end > man.value {
        NewStep(all, parts, i, man);
        hasNew := true;
        if p.id !in seen' {
          SizeStep(segs', p);
          segs', seen', bytes' := segs' + [p], seen' + {p.id}, bytes' + p.size;
        }
      } else {
        SkipStep(all, parts, i, man);
      }
      i := i + 1;
    }
  }

  /** Everything new up to part i of the object being read. */
  function Done(all: seq<Part>, parts: seq<Part>, i: nat, man: Option<nat>): seq<Part>
    requires i <= |parts|
  {
    all + NewParts(parts, i, man)
  }

  lemma StartStep(all: seq<Part>, parts: seq<Part>, man: Option<nat>)
    ensures Done(all, parts, 0, man) == all && NewParts(parts, 0, man) == []
    ensures Done(all, parts, |parts|, man) == all + NewParts(parts, |parts|, man)
  {
  }

  lemma SkipStep(all: seq<Part>, parts: seq<Part>, i: nat, man: Option<nat>)
    requires i < |parts| && !IsNew(parts[i], man)
    ensures NewParts(parts, i + 1, man) == NewParts(parts, i, man)
    ensures Done(all, parts, i + 1, man) == Done(all, parts, i, man)
  {
  }

  lemma NewStep(all: seq<Part>, parts: seq<Part>, i: nat, man: Option<nat>)
    requires i < |parts| && IsNew(parts[i], man)
    ensures NewParts(parts, i + 1, man) != []
    ensures var d, p := Done(all, parts, i, man), parts[i];
            && Dedup(Done(all, parts, i + 1, man)) == Dedup(d) + (if p.id in Ids(d) then [] else [p])
            && Ids(Done(all, parts, i + 1, man)) == Ids(d) + {p.id}
  {
    var d, p := Done(all, parts, i, man), parts[i];
    assert Done(all, parts, i + 1, man) == d + [p];
    hide NewParts, Dedup, Ids, Done;
    DedupStep(d, p);
  }

  /** The decode loop: the distinct segments above the watermark, their bytes and their objects. */
  method Gather(objs: seq<Object>, man: Option<nat>) returns (ok: bool, segs: seq<Part>, bytes: nat, newObjects: nat)
    ensures ok == Decodes(objs)
    ensures ok ==> segs == Dedup(AllNew(objs, |objs|, man)) && bytes == Size(segs) && newObjects == NewObjects(objs, |objs|, man)
  {
    NoObjects(objs, man);
    hide Dedup, Ids, Size, NewParts, AllNew, NewObjects;
    segs, bytes, newObjects := [], 0, 0;
    var seen, i := {}, 0;
    while i < |objs|
      invariant 0 <= i <= |objs| && forall j | 0 <= j < i :: objs[j].parts.Some?
      invariant segs == Dedup(AllNew(objs, i, man)) && seen == Ids(AllNew(objs, i, man))
      invariant bytes == Size(segs) && newObjects == NewObjects(objs, i, man)
    {
      if objs[i].parts.None? { return false, [], 0, 0; }
      TailStep(objs, i, man);
      var hasNew;
      segs, seen, bytes, hasNew := DecodeObject(objs[i].parts.value, man, segs, seen, bytes, AllNew(objs, i, man));
      if hasNew { newObjects := newObjects + 1; }
      i := i + 1;
    }
    ok := true;
  }

  lemma NoObjects(objs: seq<Object>, man: Option<nat>)
    ensures AllNew(objs, 0, man) == [] && NewObjects(objs, 0, man) == 0 && Dedup([]) == [] && Ids([]) == {} && Size([]) == 0
  {
  }

  /** The decode path computes the decision it stands for. */
  method DecodeTail(objs: seq<Object>, man: Option<nat>, opts: Options) returns (v: Verdict)
    ensures v == Slow(objs, man, opts)
  {
    var ok, segs, bytes, newObjects := Gather(objs, man);
    hide Dedup, Size, AllNew, NewObjects, HasSnapshot;
    if !ok { return Failed; }
    if man.None? && !HasSnapshot(segs) { return NoBaseline; }
    if segs == [] && man.Some? { return AlreadyCompacted; }
    if Below(|segs|, bytes, newObjects, opts) { return BelowThreshold(|segs|, bytes); }
    return Fold;
  }

  lemma TailStep(objs: seq<Object>, i: nat, man: Option<nat>)
    requires i < |objs| && forall j | 0 <= j <= i :: objs[j].parts.Some?
    ensures var more := NewParts(objs[i].parts.value, |objs[i].parts.value|, man);
            && AllNew(objs, i + 1, man) == AllNew(objs, i, man) + more
            && NewObjects(objs, i + 1, man) == NewObjects(objs, i, man) + if more == [] then 0 else 1
  {
    hide NewParts;
  }

  // ------------------------------------------------------------------ the preflight

  /** l0Preflight: what names, then listed sizes, say about the objects above the watermark. */
  datatype Preflight = Preflight(
    complete: bool, covered: seq<string>, newKeys: seq<string>, newSegments: nat, countsKnown: bool, bytes: int, bytesKnown: bool)

  /** The keys above the watermark, among the first n. */
  function NewKeys(keys: seq<string>, n: nat, floor: nat): seq<string>
    requires n <= |keys|
  {
    if n == 0 then []
    else if NewName(keys[n - 1], floor) then NewKeys(keys, n - 1, floor) + [keys[n - 1]]
    else NewKeys(keys, n - 1, floor)
  }

  predicate CoveredName(key: string, floor: nat) { NameOf(key).Some? && NameOf(key).value.end <= floor }

  /** The keys whose name proves they end at or below the watermark, among the first n. */
  function CoveredKeys(keys: seq<string>, n: nat, floor: nat): seq<string>
    requires n <= |keys|
  {
    if n == 0 then []
    else if CoveredName(keys[n - 1], floor) then CoveredKeys(keys, n - 1, floor) + [keys[n - 1]]
    else CoveredKeys(keys, n - 1, floor)
  }

  predicate Recognized(keys: seq<string>, n: nat)
    requires n <= |keys|
  {
    forall i | 0 <= i < n :: NameOf(keys[i]).Some?
  }

  predicate CountableName(key: string) { NameOf(key).Some? && NameOf(key).value.countable }

  predicate Countables(keys: seq<string>) { forall i | 0 <= i < |keys| :: CountableName(keys[i]) }

  /** The first loop of the preflight: names only. */
  method Classify(keys: seq<string>, floor: nat) returns (p: Preflight)
    ensures p.complete == Recognized(keys, |keys|)
    ensures p.covered == CoveredKeys(keys, |keys|, floor) && p.newKeys == NewKeys(keys, |keys|, floor)
    ensures p.countsKnown == Countables(p.newKeys)
    ensures p.countsKnown ==> p.newSegments == |p.newKeys|
    ensures p.bytes == 0 && !p.bytesKnown
  {
    var complete, covered, newKeys, newSegments, countsKnown := true, [], [], 0, true;
    var i := 0;
    hide NameOf, CoveredKeys, NewKeys, Countables, Recognized;
    NoKeys(keys, floor);
    while i < |keys|
      invariant 0 <= i <= |keys|
      invariant complete == Recognized(keys, i)
      invariant covered == CoveredKeys(keys, i, floor) && newKeys == NewKeys(keys, i, floor)
      invariant countsKnown == Countables(newKeys)
      invariant countsKnown ==> newSegments == |newKeys|
    {
      var name := NameOf(keys[i]);
      KeyStep(keys, i, floor);
      if name.None? {
        complete := false;
      } else if name.value.end <= floor {
        covered := covered + [keys[i]];
      } else {
        CountableStep(newKeys, keys[i]);
        newKeys := newKeys + [keys[i]];
        if name.value.countable { newSegments := newSegments + 1; } else { countsKnown := false; }
      }
      i := i + 1;
    }
    p := Preflight(complete, covered, newKeys, newSegments, countsKnown, 0, false);
  }

  lemma NoKeys(keys: seq<string>, floor: nat)
    ensures Recognized(keys, 0) && CoveredKeys(keys, 0, floor) == [] && NewKeys(keys, 0, floor) == [] && Countables([])
  {
  }

  lemma KeyStep(keys: seq<string>, i: nat, floor: nat)
    requires i < |keys|
    ensures Recognized(keys, i + 1) == (Recognized(keys, i) && NameOf(keys[i]).Some?)
    ensures CoveredKeys(keys, i + 1, floor) == CoveredKeys(keys, i, floor) + if CoveredName(keys[i], floor) then [keys[i]] else []
    ensures NewKeys(keys, i + 1, floor) == NewKeys(keys, i, floor) + if NewName(keys[i], floor) then [keys[i]] else []
  {
    hide NameOf;
  }

  lemma CountableStep(keys: seq<string>, k: string)
    ensures Countables(keys + [k]) == (Countables(keys) && CountableName(k))
  {
    hide CountableName;
    var all := keys + [k];
    assert all[|keys|] == k && forall i | 0 <= i < |keys| :: all[i] == keys[i];
  }

  predicate SizeKnown(key: string, sizes: map<string, int>) { key in sizes && sizes[key] >= HEADER_SIZE }

  predicate SizesKnown(keys: seq<string>, n: nat, sizes: map<string, int>)
    requires n <= |keys|
  {
    forall i | 0 <= i < n :: SizeKnown(keys[i], sizes)
  }

  function ListedSize(keys: seq<string>, n: nat, sizes: map<string, int>): int
    requires n <= |keys| && SizesKnown(keys, n, sizes)
  {
    if n == 0 then 0 else assert SizeKnown(keys[n - 1], sizes); ListedSize(keys, n - 1, sizes) + sizes[keys[n - 1]]
  }

  /** The second loop: listed sizes of the new keys; one unusable size spoils the sum. */
  method AddSizes(p: Preflight, sizes: map<string, int>, sized: bool) returns (q: Preflight)
    requires p.bytes == 0
    ensures q == p.(bytes := q.bytes, bytesKnown := q.bytesKnown)
    ensures q.bytesKnown <==> sized && SizesKnown(p.newKeys, |p.newKeys|, sizes)
    ensures q.bytesKnown ==> q.bytes == ListedSize(p.newKeys, |p.newKeys|, sizes)
  {
    var bytes, known, i := 0, sized, 0;
    while i < |p.newKeys|
      invariant 0 <= i <= |p.newKeys|
      invariant known <==> sized && SizesKnown(p.newKeys, i, sizes)
      invariant SizesKnown(p.newKeys, i, sizes) ==> bytes == ListedSize(p.newKeys, i, sizes)
    {
      var k := p.newKeys[i];
      if SizeKnown(k, sizes) { bytes := bytes + sizes[k]; } else { known := false; }
      i := i + 1;
    }
    q := p.(bytes := bytes, bytesKnown := known);
  }

  predicate BelowByName(p: Preflight, opts: Options)
  {
    && p.complete && p.newKeys != [] && p.countsKnown && p.bytesKnown
    && opts.minSegments > 0 && p.newSegments < opts.minSegments
    && opts.minBytes > 0 && p.bytes < opts.minBytes
    && (opts.minObjects <= 0 || |p.newKeys| < opts.minObjects)
  }

  // ------------------------------------------------------------------ names that tell the truth

  /**
   A recognized name tells the truth: a single-segment object holds one segment with that end and of
   the listed size, and a batch holds segments up to its end. And the object can be decoded.
   */
  predicate Honest(o: Object, sizes: map<string, int>)
  {
    && o.parts.Some?
    && var parts := o.parts.value;
    && (CountableName(o.key) ==> |parts| == 1 && parts[0].end == NameOf(o.key).value.end
                                 && (o.key in sizes ==> sizes[o.key] == parts[0].size))
    && (NameOf(o.key).Some? ==> |parts| > 0 && parts[|parts| - 1].end == NameOf(o.key).value.end
                                && forall i | 0 <= i < |parts| :: parts[i].end <= NameOf(o.key).value.end)
  }

  predicate AllHonest(objs: seq<Object>, sizes: map<string, int>) { forall i | 0 <= i < |objs| :: Honest(objs[i], sizes) }

  function KeysOf(objs: seq<Object>): seq<string> { seq(|objs|, i requires 0 <= i < |objs| => objs[i].key) }

  lemma {:induction false} NothingAbove(parts: seq<Part>, n: nat, floor: nat)
    requires n <= |parts| && forall i | 0 <= i < n :: parts[i].end <= floor
    ensures NewParts(parts, n, Some(floor)) == []
  {
    if n > 0 { NothingAbove(parts, n - 1, floor); }
  }

  lemma CoveredIsOld(o: Object, floor: nat, sizes: map<string, int>)
    requires Honest(o, sizes) && CoveredName(o.key, floor)
    ensures NewIn(o, Some(floor)) == []
  {
    hide NameOf;
    NothingAbove(o.parts.value, |o.parts.value|, floor);
  }

  lemma SingleIsNew(o: Object, floor: nat, sizes: map<string, int>)
    requires Honest(o, sizes) && NewName(o.key, floor) && CountableName(o.key)
    ensures NewIn(o, Some(floor)) == [o.parts.value[0]]
  {
    hide NameOf;
    var parts := o.parts.value;
    assert NewParts(parts, 0, Some(floor)) == [];
    assert NewParts(parts, 1, Some(floor)) == [parts[0]];
  }

  /** Fully covered by name: nothing new to decode. */
  lemma {:induction false} NamesCoverAll(objs: seq<Object>, n: nat, floor: nat, sizes: map<string, int>)
    requires AllHonest(objs, sizes) && Decodes(objs) && n <= |objs|
    requires Recognized(KeysOf(objs), n) && NewKeys(KeysOf(objs), n, floor) == []
    ensures AllNew(objs, n, Some(floor)) == []
  {
    if n > 0 {
      KeyAt(objs, n - 1, sizes);
      NoNewKey(KeysOf(objs), n, floor);
      hide NameOf, NewIn, Honest, AllHonest, KeysOf, NewKeys;
      NamesCoverAll(objs, n - 1, floor, sizes);
      CoveredIsOld(objs[n - 1], floor, sizes);
    }
  }

  lemma NoNewKey(keys: seq<string>, n: nat, floor: nat)
    requires 0 < n <= |keys| && Recognized(keys, n) && NewKeys(keys, n, floor) == []
    ensures CoveredName(keys[n - 1], floor) && Recognized(keys, n - 1) && NewKeys(keys, n - 1, floor) == []
  {
    hide NameOf;
    assert NameOf(keys[n - 1]).Some?;
  }

  lemma KeyAt(objs: seq<Object>, i: nat, sizes: map<string, int>)
    requires AllHonest(objs, sizes) && i < |objs|
    ensures KeysOf(objs)[i] == objs[i].key && Honest(objs[i], sizes)
  {
    hide Honest;
  }

  lemma HonestDecodes(objs: seq<Object>, sizes: map<string, int>)
    requires AllHonest(objs, sizes)
    ensures Decodes(objs)
  {
    forall i | 0 <= i < |objs| ensures objs[i].parts.Some? { KeyAt(objs, i, sizes); }
  }

  /** What the names above the watermark say about the segments above it. */
  ghost predicate TailTold(objs: seq<Object>, n: nat, floor: nat, sizes: map<string, int>)
    requires Decodes(objs) && n <= |objs|
  {
    var names, all := NewKeys(KeysOf(objs), n, floor), AllNew(objs, n, Some(floor));
    && |all| == |names| == NewObjects(objs, n, Some(floor))
    && (SizesKnown(names, |names|, sizes) ==> Size(all) == ListedSize(names, |names|, sizes)
                                              && forall i | 0 <= i < |all| :: all[i].size > 0)
  }

  lemma {:induction false} NamesTellTail(objs: seq<Object>, n: nat, floor: nat, sizes: map<string, int>)
    requires AllHonest(objs, sizes) && Decodes(objs) && n <= |objs|
    requires Recognized(KeysOf(objs), n) && Countables(NewKeys(KeysOf(objs), n, floor))
    ensures TailTold(objs, n, floor, sizes)
  {
    if n > 0 {
      var keys, o := KeysOf(objs), objs[n - 1];
      KeyAt(objs, n - 1, sizes);
      assert NameOf(keys[n - 1]).Some? && Recognized(keys, n - 1);
      hide NameOf, NewIn, Honest, AllHonest, KeysOf, Countables, NewParts, NewKeys, TailTold, Recognized;
      FrontCountable(keys, n, floor);
      NamesTellTail(objs, n - 1, floor, sizes);
      if NewName(o.key, floor) {
        NewKeyTold(objs, n, floor, sizes);
      } else {
        OldKeyTold(objs, n, floor, sizes);
      }
    }
  }

  lemma OldKeyTold(objs: seq<Object>, n: nat, floor: nat, sizes: map<string, int>)
    requires Decodes(objs) && 0 < n <= |objs| && Honest(objs[n - 1], sizes) && TailTold(objs, n - 1, floor, sizes)
    requires NameOf(objs[n - 1].key).Some? && !NewName(objs[n - 1].key, floor)
    ensures TailTold(objs, n, floor, sizes)
  {
    CoveredIsOld(objs[n - 1], floor, sizes);
    assert KeysOf(objs)[n - 1] == objs[n - 1].key;
    assert NewKeys(KeysOf(objs), n, floor) == NewKeys(KeysOf(objs), n - 1, floor);
    assert AllNew(objs, n, Some(floor)) == AllNew(objs, n - 1, Some(floor));
    assert NewObjects(objs, n, Some(floor)) == NewObjects(objs, n - 1, Some(floor));
    hide NewKeys, KeysOf, AllNew, NewObjects, ListedSize, SizesKnown, Size;
  }

  lemma FrontCountable(keys: seq<string>, n: nat, floor: nat)
    requires 0 < n <= |keys| && Countables(NewKeys(keys, n, floor))
    ensures Countables(NewKeys(keys, n - 1, floor))
    ensures NewName(keys[n - 1], floor) ==> CountableName(keys[n - 1])
  {
    hide CountableName, NewName;
    if NewName(keys[n - 1], floor) { CountableStep(NewKeys(keys, n - 1, floor), keys[n - 1]); }
  }

  lemma NewKeyTold(objs: seq<Object>, n: nat, floor: nat, sizes: map<string, int>)
    requires Decodes(objs) && 0 < n <= |objs| && Honest(objs[n - 1], sizes) && TailTold(objs, n - 1, floor, sizes)
    requires NewName(objs[n - 1].key, floor) && CountableName(objs[n - 1].key)
    ensures TailTold(objs, n, floor, sizes)
  {
    var k, p := objs[n - 1].key, objs[n - 1].parts.value[0];
    var names, all := NewKeys(KeysOf(objs), n - 1, floor), AllNew(objs, n - 1, Some(floor));
    NewKeyAdds(objs, n, floor, sizes);
    assert k in sizes ==> sizes[k] == p.size;
    hide NameOf, Honest, KeysOf, NewKeys, AllNew, NewObjects, NewName, CountableName, Size, ListedSize, SizesKnown;
    SizeStep(all, p);
    ListedStep(names, k, sizes);
  }

  lemma NewKeyAdds(objs: seq<Object>, n: nat, floor: nat, sizes: map<string, int>)
    requires Decodes(objs) && 0 < n <= |objs| && Honest(objs[n - 1], sizes)
    requires NewName(objs[n - 1].key, floor) && CountableName(objs[n - 1].key)
    ensures NewKeys(KeysOf(objs), n, floor) == NewKeys(KeysOf(objs), n - 1, floor) + [objs[n - 1].key]
    ensures AllNew(objs, n, Some(floor)) == AllNew(objs, n - 1, Some(floor)) + [objs[n - 1].parts.value[0]]
    ensures NewObjects(objs, n, Some(floor)) == NewObjects(objs, n - 1, Some(floor)) + 1
  {
    assert KeysOf(objs)[n - 1] == objs[n - 1].key;
    SingleIsNew(objs[n - 1], floor, sizes);
    hide NameOf, Honest, KeysOf, NewIn, NewName, CountableName;
  }

  lemma ListedStep(keys: seq<string>, k: string, sizes: map<string, int>)
    ensures var n := |keys|;
            && (SizesKnown(keys + [k], n + 1, sizes) <==> SizesKnown(keys, n, sizes) && SizeKnown(k, sizes))
            && (SizesKnown(keys + [k], n + 1, sizes) ==> ListedSize(keys + [k], n + 1, sizes) == ListedSize(keys, n, sizes) + sizes[k])
  {
    var all, n := keys + [k], |keys|;
    assert all[n] == k && forall i | 0 <= i < n :: all[i] == keys[i];
    if SizesKnown(all, n + 1, sizes) {
      assert SizeKnown(all[n], sizes);
      ListedPrefix(keys, k, n, sizes);
    }
    if SizesKnown(keys, n, sizes) && SizeKnown(k, sizes) {
      assert forall i | 0 <= i < n + 1 :: SizeKnown(all[i], sizes);
    }
  }

  lemma {:induction false} ListedPrefix(keys: seq<string>, k: string, n: nat, sizes: map<string, int>)
    requires n <= |keys| && SizesKnown(keys + [k], n, sizes)
    ensures SizesKnown(keys, n, sizes) && ListedSize(keys + [k], n, sizes) == ListedSize(keys, n, sizes)
  {
    assert forall i | 0 <= i < n :: (keys + [k])[i] == keys[i];
    if n > 0 { ListedPrefix(keys, k, n - 1, sizes); }
  }

  // ------------------------------------------------------------------ repeats

  ghost predicate NoRepeats(ps: seq<Part>) { forall i, j | 0 <= i < j < |ps| :: ps[i].id != ps[j].id }

  /** Repeats only shrink what is counted. */
  lemma {:induction false} DedupShrinks(ps: seq<Part>)
    ensures |Dedup(ps)| <= |ps| && Size(Dedup(ps)) <= Size(ps) && (ps != [] ==> Dedup(ps) != [])
  {
    if ps != [] {
      var front, last := ps[..|ps| - 1], ps[|ps| - 1];
      DedupShrinks(front);
      SizeStep(Dedup(front), last);
      assert front == [] ==> Ids(front) == {};
      hide Ids;
      assert Dedup(ps) == Dedup(front) || Dedup(ps) == Dedup(front) + [last];
    }
  }

  /** And only if there are some. */
  lemma {:induction false} DedupKeeps(ps: seq<Part>)
    ensures |Dedup(ps)| == |ps| <==> NoRepeats(ps)
    ensures NoRepeats(ps) ==> Dedup(ps) == ps
  {
    if ps != [] {
      var front, last := ps[..|ps| - 1], ps[|ps| - 1];
      DedupKeeps(front);
      DedupShrinks(front);
      LastRepeats(front, last);
      JoinLast(ps);
      hide NoRepeats, Ids, Size;
    }
  }

  lemma JoinLast(ps: seq<Part>)
    requires ps != []
    ensures ps[..|ps| - 1] + [ps[|ps| - 1]] == ps
  {
  }

  lemma LastRepeats(front: seq<Part>, last: Part)
    ensures NoRepeats(front + [last]) <==> NoRepeats(front) && last.id !in Ids(front)
  {
    var all := front + [last];
    assert all[|front|] == last && forall i | 0 <= i < |front| :: all[i] == front[i];
    if last.id in Ids(front) {
      var i :| 0 <= i < |front| && front[i].id == last.id;
      assert all[i].id == all[|front|].id;
    }
    if NoRepeats(all) { assert forall i, j | 0 <= i < j < |front| :: all[i].id != all[j].id; }
    if last.id !in Ids(front) { assert forall i | 0 <= i < |front| :: front[i] in front && front[i].id in Ids(front); }
  }

  // ------------------------------------------------------------------ the two paths agree

  /** The same decision; a skip found by name may count repeated segments the decode path would not. */
  predicate Agrees(v: Verdict, slow: Verdict)
  {
    v == slow || (v.BelowThreshold? && slow.BelowThreshold? && slow.inputs <= v.inputs && slow.bytes <= v.bytes)
  }

  lemma SkipByNameAgrees(objs: seq<Object>, floor: nat, opts: Options, sizes: map<string, int>, p: Preflight)
    requires AllHonest(objs, sizes) && BelowByName(p, opts)
    requires Recognized(KeysOf(objs), |objs|) && p.newKeys == NewKeys(KeysOf(objs), |objs|, floor) && Countables(p.newKeys)
    requires p.newSegments == |p.newKeys| && SizesKnown(p.newKeys, |p.newKeys|, sizes)
    requires p.bytes == ListedSize(p.newKeys, |p.newKeys|, sizes)
    ensures Decodes(objs) && p.bytes >= 0
    ensures var v, slow := BelowThreshold(p.newSegments, p.bytes), Slow(objs, Some(floor), opts);
            Agrees(v, slow) && (v == slow <==> NoRepeats(AllNew(objs, |objs|, Some(floor))))
  {
    HonestDecodes(objs, sizes);
    NamesTellTail(objs, |objs|, floor, sizes);
    var all := AllNew(objs, |objs|, Some(floor));
    hide NewKeys, KeysOf, Recognized, Countables, AllHonest, ListedSize, SizesKnown, AllNew, Dedup, Size, NoRepeats;
    assert TailTold(objs, |objs|, floor, sizes);
    DedupShrinks(all);
    DedupKeeps(all);
  }

  lemma CoveredAgrees(objs: seq<Object>, floor: nat, opts: Options, sizes: map<string, int>)
    requires AllHonest(objs, sizes) && Recognized(KeysOf(objs), |objs|) && NewKeys(KeysOf(objs), |objs|, floor) == []
    ensures Slow(objs, Some(floor), opts) == AlreadyCompacted
  {
    HonestDecodes(objs, sizes);
    NamesCoverAll(objs, |objs|, floor, sizes);
    assert Dedup([]) == [];
  }

  /** The decision part of Compact: names first, decoding only when they do not settle it. */
  method Decide(objs: seq<Object>, man: Option<nat>, opts: Options, sizes: map<string, int>, sized: bool)
    returns (v: Verdict, byName: bool)
    ensures !byName ==> v == Slow(objs, man, opts)
    ensures byName ==> man.Some? && (v.AlreadyCompacted? || v.BelowThreshold?)
    ensures AllHonest(objs, sizes) ==> Agrees(v, Slow(objs, man, opts))
    ensures AllHonest(objs, sizes) && byName && v.BelowThreshold? ==>
              && Decodes(objs)
              && (v == Slow(objs, man, opts) <==> NoRepeats(AllNew(objs, |objs|, man)))
  {
    byName := false;
    hide Slow, NewKeys, Recognized, Countables, AllHonest, ListedSize, SizesKnown, AllNew, NoRepeats, CoveredKeys, Decodes;
    if man.Some? {
      var p := Classify(KeysOf(objs), man.value);
      if p.complete && p.newKeys == [] {
        if AllHonest(objs, sizes) { CoveredAgrees(objs, man.value, opts, sizes); }
        return AlreadyCompacted, true;
      }
      if p.complete && p.countsKnown {
        p := AddSizes(p, sizes, sized);
        if BelowByName(p, opts) {
          ListedNonNegative(p.newKeys, |p.newKeys|, sizes);
          if AllHonest(objs, sizes) { SkipByNameAgrees(objs, man.value, opts, sizes, p); }
          return BelowThreshold(p.newSegments, p.bytes), true;
        }
      }
    }
    v := DecodeTail(objs, man, opts);
  }

  lemma {:induction false} ListedNonNegative(keys: seq<string>, n: nat, sizes: map<string, int>)
    requires n <= |keys| && SizesKnown(keys, n, sizes)
    ensures ListedSize(keys, n, sizes) >= 0
  {
    if n > 0 {
      assert SizeKnown(keys[n - 1], sizes);
      ListedNonNegative(keys, n - 1, sizes);
    }
  }
}
