/** Fast-flag patches (rodeo-cli/rbx-control/src/fflags.rs): reading overrides, merging
    them over a flag file and the original settings, and patching the settings file
    through the file-patch protocol. JSON text is a pair of functions. */
module Fflags {
  import opened Options
  import opened FilePatch
  import opened PatchRuns
  import Numerals

  datatype Value = Bool(b: bool) | Number(n: int) | Text(s: string) | Other(json: string)

  type Flags = map<string, Value>

  // ---------------------------------------------------------------------- overrides

  const KNOWN_PREFIXES: seq<string> := [
    "DFFlag", "SFFlag", "FFlag", "DFInt", "FInt", "DFString", "SFString", "FString", "DFLog", "FLog"]

  predicate HasKnownPrefix(key: string) {
    exists i :: 0 <= i < |KNOWN_PREFIXES| && KNOWN_PREFIXES[i] <= key
  }

  function TypePrefix(value: Value): string {
    match value
    case Bool(_) => "FFlag"
    case Number(_) => "FInt"
    case _ => "FString"
  }

  function AutoPrefix(key: string, value: Value): string {
    if HasKnownPrefix(key) then key else TypePrefix(value) + key
  }

  lemma AutoPrefixKnown(key: string, value: Value)
    ensures HasKnownPrefix(AutoPrefix(key, value))
    ensures forall other :: AutoPrefix(AutoPrefix(key, value), other) == AutoPrefix(key, value)
  {
    if !HasKnownPrefix(key) {
      var p := TypePrefix(value);
      assert p == KNOWN_PREFIXES[2] || p == KNOWN_PREFIXES[4] || p == KNOWN_PREFIXES[7];
      assert p <= p + key;
    }
  }

  predicate AllDigits(s: string) {
    forall i :: 0 <= i < |s| ==> '0' <= s[i] <= '9'
  }

  function Magnitude(s: string): nat
    requires AllDigits(s)
  {
    if s == "" then 0 else 10 * Magnitude(s[..|s| - 1]) + (s[|s| - 1] as int - '0' as int)
  }

  /** Parsing an i64: an optional sign, at least one digit, and the value in range. */
  function ParseI64(s: string): (r: Option<int>)
    ensures r.Some? ==> -0x8000_0000_0000_0000 <= r.value < 0x8000_0000_0000_0000
  {
    var signed := |s| > 0 && (s[0] == '+' || s[0] == '-');
    var digits := if signed then s[1..] else s;
    if digits == "" || !AllDigits(digits) then None else
      var n: int := if signed && s[0] == '-' then 0 - Magnitude(digits) else Magnitude(digits);
      if -0x8000_0000_0000_0000 <= n < 0x8000_0000_0000_0000 then Some(n) else None
  }

  function ParseValue(s: string): Value {
    if s == "true" then Bool(true)
    else if s == "false" then Bool(false)
    else match ParseI64(s)
      case Some(n) => Number(n)
      case None => Text(s)
  }

  /** Where the first '=' is. */
  function SplitAt(arg: string): (at: Option<nat>)
    ensures at.None? <==> '=' !in arg
    ensures at.Some? ==> at.value < |arg| && arg[at.value] == '=' && '=' !in arg[..at.value]
  {
    if arg == "" then None
    else if arg[0] == '=' then Some(0)
    else match SplitAt(arg[1..])
      case None => None
      case Some(k) =>
        assert arg[..k + 1] == [arg[0]] + arg[1..][..k];
        Some(k + 1)
  }

  /** The flag an override sets, if it has the form Key=Value. */
  function Entry(arg: string): Option<(string, Value)> {
    match SplitAt(arg)
    case None => None
    case Some(k) =>
      var value := ParseValue(arg[k + 1..]);
      Some((AutoPrefix(arg[..k], value), value))
  }

  type Entries = string -> Option<(string, Value)>

  predicate Sets(entry: Entries, arg: string, key: string) {
    entry(arg).Some? && entry(arg).value.0 == key
  }

  /** The value the last of the first n overrides for key gives it. */
  function LastOf(entry: Entries, overrides: seq<string>, n: nat, key: string): Option<Value>
    requires n <= |overrides|
  {
    if n == 0 then None
    else if Sets(entry, overrides[n - 1], key) then Some(entry(overrides[n - 1]).value.1)
    else LastOf(entry, overrides, n - 1, key)
  }

  /** LastOf is what it says: override i's value when i sets key and no later one does,
      and none when no override sets key. */
  lemma {:induction false} LastOfMeans(entry: Entries, overrides: seq<string>, n: nat, i: nat, key: string)
    requires n <= |overrides| && forall j :: i <= j < n ==> !Sets(entry, overrides[j], key)
    requires i <= n && (i > 0 ==> Sets(entry, overrides[i - 1], key))
    ensures LastOf(entry, overrides, n, key) == if i == 0 then None else Some(entry(overrides[i - 1]).value.1)
  {
    if i < n { LastOfMeans(entry, overrides, n - 1, i, key); }
  }

  function Lookup(flags: Flags, key: string): Option<Value> {
    if key in flags then Some(flags[key]) else None
  }

  /** flags is exactly what the first n overrides set, the last winning. */
  ghost predicate OverridesAre(entry: Entries, overrides: seq<string>, n: nat, flags: Flags)
    requires n <= |overrides|
  {
    forall key :: Lookup(flags, key) == LastOf(entry, overrides, n, key)
  }

  lemma OverridesNext(entry: Entries, overrides: seq<string>, n: nat, flags: Flags)
    requires n < |overrides| && OverridesAre(entry, overrides, n, flags)
    ensures OverridesAre(entry, overrides, n + 1,
              if entry(overrides[n]).Some? then flags[entry(overrides[n]).value.0 := entry(overrides[n]).value.1] else flags)
  {
    var pair := entry(overrides[n]);
    var next := if pair.Some? then flags[pair.value.0 := pair.value.1] else flags;
    forall key ensures Lookup(next, key) == LastOf(entry, overrides, n + 1, key) {
      assert Lookup(flags, key) == LastOf(entry, overrides, n, key);
    }
  }

  // ------------------------------------------------------- what an override says

  /** s starts with a word that tells the kind of flag. */
  ghost predicate Prefixed(s: string) {
    || "DFFlag" <= s || "SFFlag" <= s || "FFlag" <= s || "DFInt" <= s || "FInt" <= s
    || "DFString" <= s || "SFString" <= s || "FString" <= s || "DFLog" <= s || "FLog" <= s
  }

  lemma PrefixedIff(key: string)
    ensures HasKnownPrefix(key) <==> Prefixed(key)
  {
    if Prefixed(key) {
      assert KNOWN_PREFIXES[0] <= key || KNOWN_PREFIXES[1] <= key || KNOWN_PREFIXES[2] <= key || KNOWN_PREFIXES[3] <= key
        || KNOWN_PREFIXES[4] <= key || KNOWN_PREFIXES[5] <= key || KNOWN_PREFIXES[6] <= key || KNOWN_PREFIXES[7] <= key
        || KNOWN_PREFIXES[8] <= key || KNOWN_PREFIXES[9] <= key;
    }
  }

  /** What each character of a row of digits says. */
  ghost function Digits(s: string): (digits: seq<nat>)
    requires forall i :: 0 <= i < |s| ==> '0' <= s[i] <= '9'
    ensures |digits| == |s| && forall i :: 0 <= i < |s| ==> digits[i] == s[i] as int - 48
  {
    seq(|s|, i requires 0 <= i < |s| => s[i] as int - 48)
  }

  lemma {:induction false} MagnitudeIs(s: string)
    requires AllDigits(s)
    ensures Magnitude(s) == Numerals.Value(Digits(s))
  {
    if s != "" {
      var n := |s| - 1;
      MagnitudeIs(s[..n]);
      Numerals.ValueAppend(Digits(s[..n]), s[n] as int - 48);
      assert Digits(s) == Digits(s[..n]) + [s[n] as int - 48];
    }
  }

  /** s is digits, at least one, that say n. */
  ghost predicate Says(s: string, n: nat) {
    s != "" && (forall i :: 0 <= i < |s| ==> '0' <= s[i] <= '9') && Numerals.Value(Digits(s)) == n
  }

  /** s is n in digits, with or without a sign, and n is a signed 64-bit number. */
  ghost predicate Integral(s: string, n: int) {
    && -9_223_372_036_854_775_808 <= n <= 9_223_372_036_854_775_807
    && ((n >= 0 && Says(s, n))
        || (n >= 0 && s != "" && s[0] == '+' && Says(s[1..], n))
        || (n <= 0 && s != "" && s[0] == '-' && Says(s[1..], -n)))
  }

  lemma SaysIff(s: string, n: nat)
    ensures Says(s, n) <==> s != "" && AllDigits(s) && Magnitude(s) == n
  {
    if AllDigits(s) { MagnitudeIs(s); }
  }

  lemma IntegralIff(s: string, n: int)
    ensures ParseI64(s) == Some(n) <==> Integral(s, n)
  {
    if n >= 0 { SaysIff(s, n); }
    if s != "" && n >= 0 { SaysIff(s[1..], n); }
    if s != "" && n <= 0 { SaysIff(s[1..], -n); }
  }

  /** The value a text stands for. */
  ghost predicate Stands(text: string, value: Value) {
    match value
    case Bool(b) => text == if b then "true" else "false"
    case Number(n) => Integral(text, n)
    case Text(t) => t == text && text != "true" && text != "false" && forall n :: !Integral(text, n)
    case Other(_) => false
  }

  lemma NotIntegral(s: string)
    requires s == "true" || s == "false"
    ensures forall n :: !Integral(s, n)
  {
    assert s[0] == 't' || s[0] == 'f';
  }

  lemma StandsIff(text: string, value: Value)
    ensures ParseValue(text) == value <==> Stands(text, value)
  {
    if text == "true" || text == "false" {
      NotIntegral(text);
    } else {
      forall n ensures ParseI64(text) == Some(n) <==> Integral(text, n) { IntegralIff(text, n); }
    }
  }

  /** The key a name becomes: itself with a known prefix, else with the value's. */
  ghost predicate Keyed(name: string, value: Value, key: string) {
    if Prefixed(name) then key == name
    else key == (match value case Bool(_) => "FFlag" case Number(_) => "FInt" case _ => "FString") + name
  }

  /** arg is name=text, cut at the first '='. */
  predicate Cut(arg: string, name: string, text: string) {
    arg == name + "=" + text && '=' !in name
  }

  /** The override is name=text with the first '=' between them, and sets key to value. */
  ghost predicate Writes(arg: string, key: string, value: Value) {
    exists name, text :: Cut(arg, name, text) && Stands(text, value) && Keyed(name, value, key)
  }

  lemma KeyedIff(name: string, value: Value, key: string)
    ensures Keyed(name, value, key) <==> key == AutoPrefix(name, value)
  {
    PrefixedIff(name);
  }

  lemma CutIs(arg: string, name: string, text: string)
    requires Cut(arg, name, text)
    ensures SplitAt(arg) == Some(|name|) && arg[..|name|] == name && arg[|name| + 1..] == text
  {
    assert arg[|name|] == '=' && arg[..|name|] == name;
    NoneBefore(arg, |name|);
    NoneBefore(arg, SplitAt(arg).value);
  }

  lemma NoneBefore(arg: string, k: nat)
    requires k <= |arg| && '=' !in arg[..k]
    ensures forall i :: 0 <= i < k ==> arg[i] != '='
  {
    assert forall i :: 0 <= i < k ==> arg[..k][i] == arg[i];
  }

  lemma EntryOf(arg: string, name: string, text: string, key: string, value: Value)
    requires Cut(arg, name, text)
    ensures Entry(arg) == Some((key, value)) <==> Stands(text, value) && Keyed(name, value, key)
  {
    CutIs(arg, name, text);
    StandsIff(text, value);
    KeyedIff(name, value, key);
  }

  lemma EntryWrites(arg: string, key: string, value: Value)
    requires Entry(arg) == Some((key, value))
    ensures Writes(arg, key, value)
  {
    var k := SplitAt(arg).value;
    SplitCuts(arg);
    EntryOf(arg, arg[..k], arg[k + 1..], key, value);
    Spelled(arg, arg[..k], arg[k + 1..], key, value);
  }

  lemma SplitCuts(arg: string)
    requires SplitAt(arg).Some?
    ensures Cut(arg, arg[..SplitAt(arg).value], arg[SplitAt(arg).value + 1..])
  {
    var k := SplitAt(arg).value;
    assert arg == arg[..k] + [arg[k]] + arg[k + 1..];
  }

  lemma Spelled(arg: string, name: string, text: string, key: string, value: Value)
    requires Cut(arg, name, text) && Stands(text, value) && Keyed(name, value, key)
    ensures Writes(arg, key, value)
  {
  }

  lemma WritesEntry(arg: string, key: string, value: Value)
    requires Writes(arg, key, value)
    ensures Entry(arg) == Some((key, value))
  {
    var name, text :| Cut(arg, name, text) && Stands(text, value) && Keyed(name, value, key);
    EntryOf(arg, name, text, key, value);
  }

  lemma WritesIff(arg: string, key: string, value: Value)
    ensures Entry(arg) == Some((key, value)) <==> Writes(arg, key, value)
  {
    if Entry(arg) == Some((key, value)) { EntryWrites(arg, key, value); }
    if Writes(arg, key, value) { WritesEntry(arg, key, value); }
  }

  type Writing = (string, Value) -> bool

  /** Of the first n overrides, i is the last that writes, and writes value. */
  ghost predicate LastIn(writes: Writing, overrides: seq<string>, n: nat, i: nat, value: Value) {
    i < n <= |overrides| && writes(overrides[i], value) && forall j, v :: i < j < n ==> !writes(overrides[j], v)
  }

  lemma LastWrites(writes: Writing, overrides: seq<string>, n: nat, arg: string, own: Value, value: Value)
    requires 0 < n <= |overrides| && arg == overrides[n - 1] && forall v :: writes(arg, v) <==> v == own
    ensures own == value <==> exists i :: LastIn(writes, overrides, n, i, value)
  {
    if own == value { assert LastIn(writes, overrides, n, n - 1, value); }
    if exists i :: LastIn(writes, overrides, n, i, value) {
      var i :| LastIn(writes, overrides, n, i, value);
      assert writes(arg, own);
    }
  }

  lemma LastSkips(writes: Writing, overrides: seq<string>, m: nat, n: nat, arg: string, value: Value)
    requires m + 1 == n <= |overrides| && arg == overrides[m] && forall v :: !writes(arg, v)
    ensures (exists i :: LastIn(writes, overrides, m, i, value)) <==> exists i :: LastIn(writes, overrides, n, i, value)
  {
    forall i: nat ensures LastIn(writes, overrides, n, i, value) <==> LastIn(writes, overrides, m, i, value) {
    }
  }

  lemma {:induction false} LastOfIs(entry: Entries, writes: Writing, overrides: seq<string>, n: nat, key: string, value: Value)
    requires n <= |overrides| && forall arg, v :: entry(arg) == Some((key, v)) <==> writes(arg, v)
    ensures LastOf(entry, overrides, n, key) == Some(value) <==> exists i :: LastIn(writes, overrides, n, i, value)
  {
    if n > 0 {
      var arg := overrides[n - 1];
      if Sets(entry, arg, key) {
        assert entry(arg) == Some((key, entry(arg).value.1));
        LastWrites(writes, overrides, n, arg, entry(arg).value.1, value);
      } else {
        forall v ensures !writes(arg, v) { assert entry(arg) != Some((key, v)); }
        LastSkips(writes, overrides, n - 1, n, arg, value);
        LastOfIs(entry, writes, overrides, n - 1, key, value);
      }
    }
  }

  ghost function WritesKey(key: string): Writing {
    (arg: string, value: Value) => Writes(arg, key, value)
  }

  lemma WritesKeyIff(key: string)
    ensures forall arg, value :: Entry(arg) == Some((key, value)) <==> WritesKey(key)(arg, value)
  {
    forall arg, value ensures Entry(arg) == Some((key, value)) <==> WritesKey(key)(arg, value) {
      WritesIff(arg, key, value);
    }
  }

  /** The flags are what the overrides set: for each key, what the last one to set it does. */
  ghost predicate SetBy(overrides: seq<string>, flags: Flags) {
    forall key, value :: Lookup(flags, key) == Some(value) <==> LastToWrite(overrides, key, value)
  }

  ghost predicate LastToWrite(overrides: seq<string>, key: string, value: Value) {
    exists i :: LastIn(WritesKey(key), overrides, |overrides|, i, value)
  }

  lemma LastMeans(entry: Entries, overrides: seq<string>, key: string, value: Value)
    requires forall arg, v :: entry(arg) == Some((key, v)) <==> WritesKey(key)(arg, v)
    ensures LastOf(entry, overrides, |overrides|, key) == Some(value) <==> LastToWrite(overrides, key, value)
  {
    LastOfIs(entry, WritesKey(key), overrides, |overrides|, key, value);
  }

  lemma OverridesMean(overrides: seq<string>, flags: Flags)
    requires OverridesAre(Entry, overrides, |overrides|, flags)
    ensures SetBy(overrides, flags)
  {
    forall key, value ensures Lookup(flags, key) == Some(value) <==> LastToWrite(overrides, key, value) {
      assert Lookup(flags, key) == LastOf(Entry, overrides, |overrides|, key);
      WritesKeyIff(key);
      LastMeans(Entry, overrides, key, value);
    }
  }

  method ParseOverrides(overrides: seq<string>) returns (flags: Flags)
    ensures OverridesAre(Entry, overrides, |overrides|, flags)
    ensures SetBy(overrides, flags)
  {
    flags := map[];
    for i := 0 to |overrides|
      invariant OverridesAre(Entry, overrides, i, flags)
    {
      OverridesNext(Entry, overrides, i, flags);
      var arg := overrides[i];
      var at := SplitAt(arg);
      if at.Some? {
        var value := ParseValue(arg[at.value + 1..]);
        flags := flags[AutoPrefix(arg[..at.value], value) := value];
      }
    }
    OverridesMean(overrides, flags);
  }

  // -------------------------------------------------------------------------- merge

  /** Reading settings text, None when it is not a JSON object; and printing it. */
  datatype Json = Json(parse: Bytes -> Option<Flags>, render: Flags -> Bytes)

  /** The flags of the settings file, malformed or missing text counting as none. */
  function Existing(json: Json, original: Option<Bytes>): Flags {
    if original.Some? && json.parse(original.value).Some? then json.parse(original.value).value else map[]
  }

  function FlagBuilder(json: Json, flags: Flags): Builder {
    (original: Option<Bytes>) => Some(json.render(Existing(json, original) + flags))
  }

  datatype File = NoFile | Unusable | Object(flags: Flags)

  function FileFlags(file: File): Flags {
    if file.Object? then file.flags else map[]
  }

  /** key's value: the last override's, else the file's, else the original's. */
  function Effective(overrides: seq<string>, file: Flags, existing: Flags, key: string): Option<Value> {
    var last := LastOf(Entry, overrides, |overrides|, key);
    if last.Some? then last
    else if key in file then Some(file[key])
    else Lookup(existing, key)
  }

  /** Precedence, key by key. */
  lemma MergePrecedence(overrides: seq<string>, parsed: Flags, file: Flags, existing: Flags, key: string)
    requires OverridesAre(Entry, overrides, |overrides|, parsed)
    ensures Lookup(existing + (file + parsed), key) == Effective(overrides, file, existing, key)
  {
    assert Lookup(parsed, key) == LastOf(Entry, overrides, |overrides|, key);
  }

  /** What the file patched over original says of key: the last override that sets it
      decides, else the flag file, else the original if that was a JSON object. */
  ghost predicate FlagShown(overrides: seq<string>, file: Flags, json: Json, original: Option<Bytes>, key: string, shown: Option<Value>) {
    forall value :: shown == Some(value) <==>
      || LastToWrite(overrides, key, value)
      || ((forall v :: !LastToWrite(overrides, key, v))
          && if key in file then file[key] == value
             else original.Some? && json.parse(original.value).Some? && Lookup(json.parse(original.value).value, key) == Some(value))
  }

  lemma EffectiveShown(overrides: seq<string>, parsed: Flags, file: Flags, json: Json, original: Option<Bytes>, key: string)
    requires OverridesAre(Entry, overrides, |overrides|, parsed)
    ensures FlagShown(overrides, file, json, original, key, Effective(overrides, file, Existing(json, original), key))
  {
    OverridesMean(overrides, parsed);
    assert Lookup(parsed, key) == LastOf(Entry, overrides, |overrides|, key);
    assert forall value :: Lookup(parsed, key) == Some(value) <==> LastToWrite(overrides, key, value);
    if Lookup(parsed, key).Some? { assert LastToWrite(overrides, key, Lookup(parsed, key).value); }
  }

  // -------------------------------------------------------------------------- chains

  /** Whatever patchers, crashes and sweeps came before, and whatever was written over
      the patched file, the next flag patch is the original's flags under its own. */
  lemma FlagsNeverAccumulate(original: Option<Bytes>, run: seq<Event>, mine: Name, existing: Option<Name>, json: Json,
    flags: Flags, life: nat)
    requires original != Some([]) && Possible(Fresh(original), run) && LeftAlone(Fresh(original), run)
    requires LeavesNoPatch(Fresh(original), run)
    requires var w := After(Fresh(original), run);
             && Enabled(w, Apply(mine, existing, FlagBuilder(json, flags), life))
             && life >= |ApplyStates(w.dir, existing, mine, FlagBuilder(json, flags))|
    ensures var next := Next(After(Fresh(original), run), Apply(mine, existing, FlagBuilder(json, flags), life));
            next.dir == Dir(Some(json.render(Existing(json, original) + flags)), map[mine := Encode(original)])
  {
    LeftAloneFacts(Fresh(original), run);
    RunKeeps(Fresh(original), run);
    ApplyClaims(After(Fresh(original), run), mine, existing, FlagBuilder(json, flags), life);
  }

  /** The same, read back key by key by a JSON that reads what it prints. */
  lemma WrittenFlagsAre(original: Option<Bytes>, run: seq<Event>, mine: Name, existing: Option<Name>, json: Json,
    overrides: seq<string>, parsed: Flags, file: Flags, life: nat, key: string)
    requires original != Some([]) && Possible(Fresh(original), run) && LeftAlone(Fresh(original), run)
    requires LeavesNoPatch(Fresh(original), run)
    requires OverridesAre(Entry, overrides, |overrides|, parsed) && forall flags :: json.parse(json.render(flags)) == Some(flags)
    requires var w := After(Fresh(original), run);
             && Enabled(w, Apply(mine, existing, FlagBuilder(json, file + parsed), life))
             && life >= |ApplyStates(w.dir, existing, mine, FlagBuilder(json, file + parsed))|
    ensures var next := Next(After(Fresh(original), run), Apply(mine, existing, FlagBuilder(json, file + parsed), life));
            && Lookup(Existing(json, next.dir.target), key) == Effective(overrides, file, Existing(json, original), key)
            && next.dir.target.Some? && json.parse(next.dir.target.value).Some?
            && FlagShown(overrides, file, json, original, key, Lookup(json.parse(next.dir.target.value).value, key))
  {
    FlagsNeverAccumulate(original, run, mine, existing, json, file + parsed, life);
    MergePrecedence(overrides, parsed, file, Existing(json, original), key);
    EffectiveShown(overrides, parsed, file, json, original, key);
  }

  /** The last owner gives back the bytes the first patcher found: exactly if its
      deletions work, where any matter. */
  lemma LastOwnerGivesBack(original: Option<Bytes>, run: seq<Event>, lock: Name, luck: Luck, life: nat)
    requires original != Some([]) && Possible(Fresh(original), run) && LeftAlone(Fresh(original), run)
    requires LeavesNoPatch(Fresh(original), run)
    requires var w := After(Fresh(original), run);
             lock in w.handles && !w.handles[lock].restored && lock in w.dir.locks && life >= 2
    ensures var w := After(Fresh(original), run);
            Next(w, Restore(lock, luck, life)).dir == Dir(original, map[]) <==> Clears(w.dir, original, luck)
  {
    LeftAloneFacts(Fresh(original), run);
    RunKeeps(Fresh(original), run);
    OwnerRestores(After(Fresh(original), run), lock, luck, life);
  }

  // ------------------------------------------------------------------ the settings

  /** The ClientSettings directory: whether it exists, whether it holds other files. */
  class Settings {
    const disk: Disk
    var present: bool
    var others: bool

    constructor (disk: Disk, present: bool, others: bool)
      ensures this.disk == disk && this.present == present && this.others == others
    {
      this.disk, this.present, this.others := disk, present, others;
    }

    predicate Empty()
      reads this, disk
    {
      !others && disk.dir.target.None? && disk.dir.locks == map[]
    }

    method RemoveIfEmpty()
      modifies this`present
      ensures present == (old(present) && (others || disk.dir.target.Some? || disk.dir.locks != map[]))
    {
      if Empty() { present := false; }
    }
  }

  datatype Outcome = Refused | NoFlags | Failed | Applied(handle: FflagHandle)

  /** `apply`: nothing happens without flags or with an unusable file. */
  method ApplyFlags(settings: Settings, overrides: seq<string>, file: File, mine: Name, json: Json)
    returns (r: Outcome, ghost parsed: Flags, ghost existing: Option<Name>)
    modifies settings`present, settings.disk
    ensures OverridesAre(Entry, overrides, |overrides|, parsed)
    ensures r.Refused? <==> file.Unusable?
    ensures r.NoFlags? <==> !file.Unusable? && FileFlags(file) + parsed == map[]
    ensures r.Refused? || r.NoFlags? ==> settings.present == old(settings.present) && settings.disk.dir == old(settings.disk.dir)
    ensures !(r.Refused? || r.NoFlags?) ==>
              var build := FlagBuilder(json, FileFlags(file) + parsed);
              && settings.present && Finds(old(settings.disk.dir), existing)
              && settings.disk.dir == Stopped(old(settings.disk.dir), ApplyStates(old(settings.disk.dir), existing, mine, build), old(settings.disk.life))
              && (r.Applied? <==> old(settings.disk.life) >= |ApplyStates(old(settings.disk.dir), existing, mine, build)|)
              && ApplySpec(old(settings.disk.dir), old(settings.disk.life), existing, mine, build, settings.disk.dir, r.Applied?)
    ensures r.Applied? ==> fresh(r.handle) && fresh(r.handle.inner) && !r.handle.restored && !r.handle.inner.restored
                           && r.handle.inner.lock == mine && r.handle.inner.noOriginal == NoOriginal(old(settings.disk.dir), existing)
                           && r.handle.createdDir == !old(settings.present)
  {
    existing := None;
    var over := ParseOverrides(overrides);
    parsed := over;
    if file.Unusable? { return Refused, parsed, existing; }
    var flags := FileFlags(file) + over;
    if flags == map[] { return NoFlags, parsed, existing; }
    var created := !settings.present;
    settings.present := true;
    var h;
    h, existing := settings.disk.Apply(mine, FlagBuilder(json, flags));
    if h.None? { return Failed, parsed, existing; }
    var handle := new FflagHandle(h.value, created);
    r := Applied(handle);
  }

  /** A flag patch in force. */
  class FflagHandle {
    const inner: Handle
    const createdDir: bool
    var restored: bool

    constructor (inner: Handle, createdDir: bool)
      ensures this.inner == inner && this.createdDir == createdDir && !restored
    {
      this.inner, this.createdDir, restored := inner, createdDir, false;
    }

    /** Restores once; a handle whose lock was claimed changes nothing in the directory;
        the directory itself goes only when this patch made it and it is empty. */
    method Restore(settings: Settings, luck: Luck)
      requires inner.restored ==> restored
      modifies this, inner, settings`present, settings.disk
      ensures restored && (old(restored) || inner.restored)
      ensures old(restored) || inner.lock !in old(settings.disk.dir).locks ==> settings.disk.dir == old(settings.disk.dir)
      ensures !old(restored) ==>
                settings.disk.dir == Stopped(old(settings.disk.dir), RestoreStates(old(settings.disk.dir), inner.lock, inner.noOriginal, luck), old(settings.disk.life))
      ensures !old(restored) ==>
                RestoreSpec(old(settings.disk.dir), old(settings.disk.life), inner.lock, inner.noOriginal, luck, settings.disk.dir)
      ensures settings.present == (old(settings.present)
                && !(!old(restored) && createdDir && !settings.others && settings.disk.dir.target.None? && settings.disk.dir.locks == map[]))
    {
      if restored { return; }
      restored := true;
      inner.Restore(settings.disk, luck);
      if createdDir { settings.RemoveIfEmpty(); }
    }
  }
}
