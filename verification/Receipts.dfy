/** Risk receipts, without their digests, and the ban on secret-bearing keys. */
module Receipts {
  import opened Prelude
  import opened State

  /** A nested payload; scalars carry no keys. */
  datatype Value =
    | VMap(entries: seq<(string, Value)>)
    | VList(items: seq<Value>)
    | VText(text: string)
    | VReason(reason: Reason)
    | VFlag(flag: bool)
    | VNumber(number: int)
    | VNull

  function LowerChar(c: char): char {
    if 'A' <= c <= 'Z' then (c as int + 32) as char
    else if c == '-' then '_'
    else c
  }

  /** Lower case, with hyphens read as underscores. */
  function Normalized(key: string): (r: string)
    ensures |r| == |key|
  {
    seq(|key|, i requires 0 <= i < |key| => LowerChar(key[i]))
  }

  const SENSITIVE := {"api_key", "authorization", "password", "secret", "token"}

  predicate IsSensitive(key: string) {
    Normalized(key) in SENSITIVE
  }

  /** `c` spells the letter `l` of a banned name: in either case, or a hyphen for an underscore. */
  predicate Spells(c: char, l: char) {
    || c == l
    || ('a' <= l <= 'z' && c as int + 32 == l as int)
    || (l == '_' && c == '-')
  }

  ghost predicate SpellsName(key: string, name: string) {
    |key| == |name| && forall i | 0 <= i < |key| :: Spells(key[i], name[i])
  }

  lemma NormalizedIff(key: string, name: string)
    requires forall i | 0 <= i < |name| :: 'a' <= name[i] <= 'z' || name[i] == '_'
    ensures Normalized(key) == name <==> SpellsName(key, name)
  {
    if SpellsName(key, name) {
      forall i | 0 <= i < |key| ensures Normalized(key)[i] == name[i] {
        assert Spells(key[i], name[i]);
      }
    }
    if Normalized(key) == name {
      forall i | 0 <= i < |key| ensures Spells(key[i], name[i]) {
        assert Normalized(key)[i] == LowerChar(key[i]);
      }
    }
  }

  /** A key is sensitive exactly when it spells one of the five banned names. */
  lemma SensitiveIff(key: string)
    ensures IsSensitive(key) <==>
            || SpellsName(key, "api_key") || SpellsName(key, "authorization")
            || SpellsName(key, "password") || SpellsName(key, "secret")
            || SpellsName(key, "token")
  {
    NormalizedIff(key, "api_key");
    NormalizedIff(key, "authorization");
    NormalizedIff(key, "password");
    NormalizedIff(key, "secret");
    NormalizedIff(key, "token");
  }

  /** The first sensitive key in reading order: each key before what it maps to. */
  function RejectSensitive(v: Value): Option<string>
    decreases v
  {
    match v
    case VMap(entries) => RejectEntries(v, 0)
    case VList(items) => RejectItems(v, 0)
    case _ => None
  }

  function RejectEntries(v: Value, i: nat): Option<string>
    requires v.VMap? && i <= |v.entries|
    decreases v, |v.entries| - i
  {
    if i == |v.entries| then None
    else if IsSensitive(v.entries[i].0) then Some(v.entries[i].0)
    else
      var inner := RejectSensitive(v.entries[i].1);
      if inner.Some? then inner else RejectEntries(v, i + 1)
  }

  function RejectItems(v: Value, i: nat): Option<string>
    requires v.VList? && i <= |v.items|
    decreases v, |v.items| - i
  {
    if i == |v.items| then None
    else
      var inner := RejectSensitive(v.items[i]);
      if inner.Some? then inner else RejectItems(v, i + 1)
  }

  /** `key` stands in `v` at the end of `path`, a list of positions to descend by. */
  predicate KeyAt(v: Value, path: seq<nat>, key: string)
    decreases |path|
  {
    && path != []
    && match v
       case VMap(entries) =>
         path[0] < |entries|
         && (if |path| == 1 then entries[path[0]].0 == key
             else KeyAt(entries[path[0]].1, path[1..], key))
       case VList(items) =>
         path[0] < |items| && KeyAt(items[path[0]], path[1..], key)
       case _ => false
  }

  /** A sensitive key stands somewhere in `v`, however deep. */
  ghost predicate Leaks(v: Value) {
    exists path, key :: KeyAt(v, path, key) && IsSensitive(key)
  }

  /** What is reported is a sensitive key that really occurs. */
  lemma {:induction false} ReportedKeyOccurs(v: Value) returns (path: seq<nat>)
    requires RejectSensitive(v).Some?
    ensures IsSensitive(RejectSensitive(v).value) && KeyAt(v, path, RejectSensitive(v).value)
    decreases v
  {
    if v.VMap? {
      path := ReportedEntryOccurs(v, 0);
    } else {
      path := ReportedItemOccurs(v, 0);
    }
  }

  lemma {:induction false} ReportedEntryOccurs(v: Value, i: nat) returns (path: seq<nat>)
    requires v.VMap? && i <= |v.entries| && RejectEntries(v, i).Some?
    ensures IsSensitive(RejectEntries(v, i).value) && KeyAt(v, path, RejectEntries(v, i).value)
    decreases v, |v.entries| - i
  {
    if IsSensitive(v.entries[i].0) {
      path := [i];
    } else if RejectSensitive(v.entries[i].1).Some? {
      var inner := ReportedKeyOccurs(v.entries[i].1);
      path := [i] + inner;
      assert path[1..] == inner;
    } else {
      path := ReportedEntryOccurs(v, i + 1);
    }
  }

  lemma {:induction false} ReportedItemOccurs(v: Value, i: nat) returns (path: seq<nat>)
    requires v.VList? && i <= |v.items| && RejectItems(v, i).Some?
    ensures IsSensitive(RejectItems(v, i).value) && KeyAt(v, path, RejectItems(v, i).value)
    decreases v, |v.items| - i
  {
    if RejectSensitive(v.items[i]).Some? {
      var inner := ReportedKeyOccurs(v.items[i]);
      path := [i] + inner;
      assert path[1..] == inner;
    } else {
      path := ReportedItemOccurs(v, i + 1);
    }
  }

  lemma {:induction false} EntriesSearched(v: Value, i: nat, j: nat)
    requires v.VMap? && i <= j < |v.entries| && RejectEntries(v, i).None?
    ensures !IsSensitive(v.entries[j].0) && RejectSensitive(v.entries[j].1).None?
    decreases j - i
  {
    if i < j {
      EntriesSearched(v, i + 1, j);
    }
  }

  lemma {:induction false} ItemsSearched(v: Value, i: nat, j: nat)
    requires v.VList? && i <= j < |v.items| && RejectItems(v, i).None?
    ensures RejectSensitive(v.items[j]).None?
    decreases j - i
  {
    if i < j {
      ItemsSearched(v, i + 1, j);
    }
  }

  /** A sensitive key at any depth is found. */
  lemma {:induction false} NothingMissed(v: Value, path: seq<nat>, key: string)
    requires RejectSensitive(v).None? && KeyAt(v, path, key)
    ensures !IsSensitive(key)
    decreases |path|
  {
    if v.VMap? {
      EntriesSearched(v, 0, path[0]);
      if |path| > 1 {
        NothingMissed(v.entries[path[0]].1, path[1..], key);
      }
    } else {
      ItemsSearched(v, 0, path[0]);
      NothingMissed(v.items[path[0]], path[1..], key);
    }
  }

  /** The search rejects exactly the payloads that hold a sensitive key somewhere. */
  lemma RejectsIffLeaks(v: Value)
    ensures RejectSensitive(v).Some? <==> Leaks(v)
  {
    if RejectSensitive(v).Some? {
      var path := ReportedKeyOccurs(v);
    } else {
      forall path, key | KeyAt(v, path, key) ensures !IsSensitive(key) {
        NothingMissed(v, path, key);
      }
    }
  }

  /** Level by level: a mapping is rejected for a key of its own or for what a key maps to, a
      list for an item, and nothing else is. */
  lemma RejectedIff(v: Value)
    ensures RejectSensitive(v).Some? <==>
      || (v.VMap?
          && exists i: nat | i < |v.entries| ::
               IsSensitive(v.entries[i].0) || RejectSensitive(v.entries[i].1).Some?)
      || (v.VList? && exists i: nat | i < |v.items| :: RejectSensitive(v.items[i]).Some?)
  {
    if v.VMap? {
      if RejectSensitive(v).None? {
        forall i: nat | i < |v.entries|
          ensures !IsSensitive(v.entries[i].0) && RejectSensitive(v.entries[i].1).None?
        {
          EntriesSearched(v, 0, i);
        }
      } else {
        var i := RejectedEntry(v, 0);
      }
    } else if v.VList? {
      if RejectSensitive(v).None? {
        forall i: nat | i < |v.items| ensures RejectSensitive(v.items[i]).None? {
          ItemsSearched(v, 0, i);
        }
      } else {
        var i := RejectedItem(v, 0);
      }
    }
  }

  lemma {:induction false} RejectedEntry(v: Value, i: nat) returns (j: nat)
    requires v.VMap? && i <= |v.entries| && RejectEntries(v, i).Some?
    ensures j < |v.entries|
    ensures IsSensitive(v.entries[j].0) || RejectSensitive(v.entries[j].1).Some?
    decreases |v.entries| - i
  {
    if IsSensitive(v.entries[i].0) || RejectSensitive(v.entries[i].1).Some? {
      j := i;
    } else {
      j := RejectedEntry(v, i + 1);
    }
  }

  lemma {:induction false} RejectedItem(v: Value, i: nat) returns (j: nat)
    requires v.VList? && i <= |v.items| && RejectItems(v, i).Some?
    ensures j < |v.items| && RejectSensitive(v.items[j]).Some?
    decreases |v.items| - i
  {
    if RejectSensitive(v.items[i]).Some? {
      j := i;
    } else {
      j := RejectedItem(v, i + 1);
    }
  }

  // ----- Receipts -----

  /** The characters that `str.strip` removes. */
  predicate IsSpace(c: char) {
    var n := c as int;
    || 9 <= n <= 13 || 28 <= n <= 32 || n == 0x85 || n == 0xA0 || n == 0x1680
    || 0x2000 <= n <= 0x200A || n == 0x2028 || n == 0x2029 || n == 0x202F || n == 0x205F
    || n == 0x3000
  }

  predicate Blank(s: string) {
    forall i | 0 <= i < |s| :: IsSpace(s[i])
  }

  datatype Receipt = Receipt(runId: string, outcome: string, provenance: Value, details: Value)

  function BuildRiskReceipt(runId: string, outcome: string, provenance: Value, details: Value)
    : Result<Receipt, Error>
  {
    if Blank(runId) || Blank(outcome) then Failure(ValueError("run_id and outcome"))
    else if RejectSensitive(provenance).Some? then
      Failure(SensitiveField(RejectSensitive(provenance).value))
    else if RejectSensitive(details).Some? then
      Failure(SensitiveField(RejectSensitive(details).value))
    else Success(Receipt(runId, outcome, provenance, details))
  }

  /** ASCII text is blank exactly when it holds nothing but spaces and control separators. */
  lemma AsciiBlankIff(s: string)
    requires forall i | 0 <= i < |s| :: s[i] as int < 128
    ensures Blank(s) <==>
      forall i | 0 <= i < |s| ::
        s[i] == ' ' || '\t' <= s[i] <= '\r' || 28 <= s[i] as int <= 31
  {
  }

  /** When a receipt is built it holds what was passed; blank names are refused before any key. */
  lemma ReceiptBuiltIff(runId: string, outcome: string, provenance: Value, details: Value)
    ensures var r := BuildRiskReceipt(runId, outcome, provenance, details);
            && (r == Success(Receipt(runId, outcome, provenance, details)) <==>
                  !Blank(runId) && !Blank(outcome) && !Leaks(provenance) && !Leaks(details))
            && (Blank(runId) || Blank(outcome) ==> r == Failure(ValueError("run_id and outcome")))
            && (!Blank(runId) && !Blank(outcome) && Leaks(provenance) ==>
                  r.Failure? && r.error.SensitiveField? && IsSensitive(r.error.key)
                  && exists path :: KeyAt(provenance, path, r.error.key))
            && (!Blank(runId) && !Blank(outcome) && !Leaks(provenance) && Leaks(details) ==>
                  r.Failure? && r.error.SensitiveField? && IsSensitive(r.error.key)
                  && exists path :: KeyAt(details, path, r.error.key))
  {
    RejectsIffLeaks(provenance);
    RejectsIffLeaks(details);
    if RejectSensitive(provenance).Some? {
      var path := ReportedKeyOccurs(provenance);
    }
    if RejectSensitive(details).Some? {
      var path := ReportedKeyOccurs(details);
    }
  }
}
