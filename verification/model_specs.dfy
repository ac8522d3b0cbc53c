/**
 The text of a model setting, as app/common/llm_config.py reads it: `provider:model` specs and
 the comma-separated environment form of a list of them.
 */
module ModelSpecs {
  import opened Common

  const DEFAULT_PROVIDER := "google_genai"
  const MODELS_PREFIX := "models/"

  datatype Use = Agent | ReviewProcessor | Processor

  /** The characters Python's str.strip removes. */
  predicate IsSpace(c: char) {
    var n := c as int;
    || 9 <= n <= 13 || 28 <= n <= 32 || n == 0x85 || n == 0xA0 || n == 0x1680
    || 0x2000 <= n <= 0x200A || n == 0x2028 || n == 0x2029 || n == 0x202F || n == 0x205F || n == 0x3000
  }

  function StripLeft(s: string): string {
    if s != [] && IsSpace(s[0]) then StripLeft(s[1..]) else s
  }

  function StripRight(s: string): string {
    if s != [] && IsSpace(s[|s| - 1]) then StripRight(s[..|s| - 1]) else s
  }

  function Strip(s: string): string {
    StripRight(StripLeft(s))
  }

  /** The index of the first c at or after i, or the length. */
  function Find(s: string, c: char, i: nat): (k: nat)
    requires i <= |s|
    ensures i <= k <= |s| && (k < |s| ==> s[k] == c)
    decreases |s| - i
  {
    if i < |s| && s[i] != c then Find(s, c, i + 1) else i
  }

  function RemovePrefix(s: string, prefix: string): string {
    if prefix <= s then s[|prefix|..] else s
  }

  function ParseSpec(value: string): (string, string) {
    var s := Strip(value);
    var k := Find(s, ':', 0);
    if k == |s| then (Strip(DEFAULT_PROVIDER), RemovePrefix(Strip(s), MODELS_PREFIX))
    else (Strip(s[..k]), RemovePrefix(Strip(s[k + 1..]), MODELS_PREFIX))
  }

  predicate IsIdStart(c: char) {
    'a' <= c <= 'z' || '0' <= c <= '9'
  }

  predicate IsIdChar(c: char) {
    IsIdStart(c) || c == '.' || c == '-'
  }

  predicate IsModelId(m: string) {
    m != [] && IsIdStart(m[0]) && forall i :: 0 <= i < |m| ==> IsIdChar(m[i])
  }

  const MODEL_OPTIONS: set<string> :=
    {"gemma-4-31b-it", "gemma-4-26b-a4b-it", "gemini-3.5-flash-lite", "gemini-3.1-flash-lite"}

  /** The catalog processor takes only models its rate limiter has a budget for. */
  predicate Selectable(use: Use, m: string) {
    use == Processor ==> m in MODEL_OPTIONS
  }

  datatype SpecError = EmptySpec | UnsupportedProvider | MalformedModel | NotSelectable

  function ValidateSpec(use: Use, value: string): Result<string, SpecError> {
    if Strip(value) == [] then Err(EmptySpec)
    else
      var (provider, model) := ParseSpec(value);
      if provider != DEFAULT_PROVIDER then Err(UnsupportedProvider)
      else if !IsModelId(model) then Err(MalformedModel)
      else if !Selectable(use, model) then Err(NotSelectable)
      else Ok(provider + ":" + model)
  }

  /** What validation answers with, and accepts as it is. */
  predicate Normal(use: Use, s: string) {
    exists k :: 0 <= k <= |s| && s[..k] == DEFAULT_PROVIDER + ":" && IsModelId(s[k..]) && Selectable(use, s[k..])
  }

  lemma {:induction false} StripLeftKeeps(s: string)
    ensures StripLeft(s) == [] || !IsSpace(StripLeft(s)[0])
    ensures (s == [] || !IsSpace(s[0])) ==> StripLeft(s) == s
  {
    if s != [] && IsSpace(s[0]) {
      StripLeftKeeps(s[1..]);
    }
  }

  lemma StripOfClean(s: string)
    requires s != [] && !IsSpace(s[0]) && !IsSpace(s[|s| - 1])
    ensures Strip(s) == s
  {
    StripLeftKeeps(s);
  }

  lemma {:induction false} FindSkips(s: string, c: char, i: nat, k: nat)
    requires i <= k <= |s| && (forall j :: i <= j < k ==> s[j] != c) && (k < |s| ==> s[k] == c)
    ensures Find(s, c, i) == k
    decreases k - i
  {
    if i < k {
      FindSkips(s, c, i + 1, k);
    }
  }

  lemma IdHasNoPrefix(m: string)
    requires IsModelId(m)
    ensures RemovePrefix(m, MODELS_PREFIX) == m && Strip(m) == m
  {
    if |m| >= |MODELS_PREFIX| {
      assert IsIdChar(m[6]) && MODELS_PREFIX[6] == '/';
      assert m[6] != MODELS_PREFIX[6];
    }
    assert IsIdChar(m[|m| - 1]);
    StripOfClean(m);
  }

  /** A spec in the stored form reads as its own provider and model. */
  lemma SpecReadsBack(use: Use, m: string)
    requires IsModelId(m) && Selectable(use, m)
    ensures ParseSpec(DEFAULT_PROVIDER + ":" + m) == (DEFAULT_PROVIDER, m)
    ensures ValidateSpec(use, DEFAULT_PROVIDER + ":" + m) == Ok(DEFAULT_PROVIDER + ":" + m)
  {
    var s := DEFAULT_PROVIDER + ":" + m;
    assert s[0] == 'g' && s[|s| - 1] == m[|m| - 1] && IsIdChar(m[|m| - 1]);
    StripOfClean(s);
    assert s[..12] == DEFAULT_PROVIDER && s[12] == ':' && s[13..] == m;
    assert forall j :: 0 <= j < 12 ==> s[j] == DEFAULT_PROVIDER[j];
    FindSkips(s, ':', 0, 12);
    StripOfClean(DEFAULT_PROVIDER);
    IdHasNoPrefix(m);
  }

  /** Whatever validation accepts, it accepts again unchanged. */
  lemma ValidateSpecIsIdempotent(use: Use, value: string)
    requires ValidateSpec(use, value).Ok?
    ensures ValidateSpec(use, ValidateSpec(use, value).value) == ValidateSpec(use, value)
  {
    SpecReadsBack(use, ParseSpec(value).1);
  }

  /** Validation leaves exactly the specs in the stored form as they are. */
  lemma NormalIffUnchanged(use: Use, s: string)
    ensures ValidateSpec(use, s) == Ok(s) <==> Normal(use, s)
  {
    if ValidateSpec(use, s) == Ok(s) {
      var m := ParseSpec(s).1;
      assert s == DEFAULT_PROVIDER + ":" + m;
      assert s[..13] == DEFAULT_PROVIDER + ":" && s[13..] == m;
    } else if k :| 0 <= k <= |s| && s[..k] == DEFAULT_PROVIDER + ":" && IsModelId(s[k..]) && Selectable(use, s[k..]) {
      assert s == DEFAULT_PROVIDER + ":" + s[k..];
      SpecReadsBack(use, s[k..]);
    }
  }

  // --- What a spec may look like -----------------------------------------------------------------------

  predicate Spaces(s: string) {
    forall i :: 0 <= i < |s| ==> IsSpace(s[i])
  }

  /** Nothing to strip. */
  predicate Trimmed(s: string) {
    s == [] || (!IsSpace(s[0]) && !IsSpace(s[|s| - 1]))
  }

  lemma {:induction false} StripLeftDrops(before: string, s: string)
    requires Spaces(before)
    ensures StripLeft(before + s) == StripLeft(s)
  {
    if before == [] {
      assert before + s == s;
    } else {
      var all := before + s;
      assert all[0] == before[0] && all[1..] == before[1..] + s;
      StripLeftDrops(before[1..], s);
    }
  }

  lemma {:induction false} StripRightDrops(s: string, after: string)
    requires Spaces(after)
    ensures StripRight(s + after) == StripRight(s)
  {
    if after == [] {
      assert s + after == s;
    } else {
      var all, n := s + after, |after| - 1;
      assert all[|all| - 1] == after[n] && all[..|all| - 1] == s + after[..n];
      StripRightDrops(s, after[..n]);
    }
  }

  /** Whatever stands between white space is what is left of a text. */
  lemma StripDropsSpaces(before: string, s: string, after: string)
    requires Spaces(before) && Spaces(after) && Trimmed(s)
    ensures Strip(before + s + after) == s
  {
    assert before + s + after == before + (s + after);
    StripLeftDrops(before, s + after);
    if s == [] {
      assert s + after == after + s;
      StripLeftDrops(after, s);
    } else {
      assert (s + after)[0] == s[0];
      StripRightDrops(s, after);
    }
  }

  /** Every text is its stripped form between white space. */
  lemma {:induction false} StripLeftLeaves(s: string) returns (before: string)
    ensures Spaces(before) && s == before + StripLeft(s)
  {
    if s == [] || !IsSpace(s[0]) {
      before := [];
    } else {
      var rest := StripLeftLeaves(s[1..]);
      before := [s[0]] + rest;
    }
  }

  lemma {:induction false} StripRightLeaves(s: string) returns (after: string)
    ensures Spaces(after) && s == StripRight(s) + after
    ensures StripRight(s) == [] || !IsSpace(StripRight(s)[|StripRight(s)| - 1])
  {
    if s == [] || !IsSpace(s[|s| - 1]) {
      after := [];
    } else {
      var rest := StripRightLeaves(s[..|s| - 1]);
      after := rest + [s[|s| - 1]];
    }
  }

  lemma StripIsTrimmed(s: string)
    ensures Trimmed(Strip(s))
  {
    StripLeftKeeps(s);
    var after := StripRightLeaves(StripLeft(s));
    if Strip(s) != [] {
      assert StripLeft(s)[0] == Strip(s)[0];
    }
  }

  lemma {:induction false} StripLeftStopsAt(left: string, rest: string)
    requires rest != [] && !IsSpace(rest[0])
    ensures StripLeft(left + rest) == StripLeft(left) + rest
  {
    var all := left + rest;
    if left == [] {
      assert all == rest;
    } else {
      assert all[0] == left[0] && all[1..] == left[1..] + rest;
      StripLeftStopsAt(left[1..], rest);
    }
  }

  lemma {:induction false} StripRightStopsAt(rest: string, right: string)
    requires rest != [] && !IsSpace(rest[|rest| - 1])
    ensures StripRight(rest + right) == rest + StripRight(right)
  {
    var all := rest + right;
    if right == [] {
      assert all == rest;
    } else {
      var n := |right| - 1;
      assert all[|all| - 1] == right[n] && all[..|all| - 1] == rest + right[..n];
      StripRightStopsAt(rest, right[..n]);
    }
  }

  predicate NoColon(s: string) {
    forall i :: 0 <= i < |s| ==> s[i] != ':'
  }

  lemma StripOfSplit(left: string, right: string)
    ensures Strip(left + ":" + right) == StripLeft(left) + ":" + StripRight(right)
  {
    assert left + ":" + right == left + (":" + right);
    StripLeftStopsAt(left, ":" + right);
    var head := StripLeft(left) + ":";
    assert StripLeft(left) + (":" + right) == head + right;
    StripRightStopsAt(head, right);
  }

  lemma {:induction false} StripIgnoresTheRight(s: string, after: string)
    requires Spaces(after)
    ensures Strip(s + after) == Strip(s)
  {
    if s == [] {
      StripLeftDrops(after, []);
      assert after + [] == s + after;
    } else if IsSpace(s[0]) {
      StripIgnoresTheRight(s[1..], after);
      assert (s + after)[1..] == s[1..] + after;
    } else {
      assert (s + after)[0] == s[0];
      StripRightDrops(s, after);
    }
  }

  lemma StripTwice(s: string)
    ensures Strip(StripLeft(s)) == Strip(s) && Strip(StripRight(s)) == Strip(s)
  {
    StripLeftKeeps(s);
    StripLeftKeeps(StripLeft(s));
    var after := StripRightLeaves(s);
    StripIgnoresTheRight(StripRight(s), after);
  }

  /**
   A spec is split at its first colon, and its two parts are stripped; without a colon the provider
   is the default one. Either way a leading "models/" is not part of the model.
   */
  lemma ParseSpecSplitsAtTheFirstColon(left: string, right: string)
    requires NoColon(left)
    ensures ParseSpec(left + ":" + right) == (Strip(left), RemovePrefix(Strip(right), MODELS_PREFIX))
    ensures ParseSpec(left) == ("google_genai", RemovePrefix(Strip(left), MODELS_PREFIX))
  {
    StripOfSplit(left, right);
    StripLeftHasNoColon(left);
    FirstColon(StripLeft(left), StripRight(right));
    StripTwice(left);
    StripTwice(right);
    ParseBare(left);
  }

  lemma StripLeftHasNoColon(s: string)
    requires NoColon(s)
    ensures NoColon(StripLeft(s))
  {
    var before := StripLeftLeaves(s);
    assert forall j :: 0 <= j < |StripLeft(s)| ==> StripLeft(s)[j] == s[|before| + j];
  }

  lemma FirstColon(l: string, r: string)
    requires NoColon(l)
    ensures var s := l + ":" + r; Find(s, ':', 0) == |l| < |s| && s[..|l|] == l && s[|l| + 1..] == r
  {
    var s := l + ":" + r;
    assert forall j :: 0 <= j < |l| ==> s[j] == l[j];
    assert s[|l|] == ':';
    FindSkips(s, ':', 0, |l|);
    assert s[..|l|] == l && s[|l| + 1..] == r;
  }

  lemma ParseBare(value: string)
    requires NoColon(value)
    ensures ParseSpec(value) == ("google_genai", RemovePrefix(Strip(value), MODELS_PREFIX))
  {
    var s, l := Strip(value), StripLeft(value);
    StripLeftHasNoColon(value);
    var after := StripRightLeaves(l);
    assert forall j :: 0 <= j < |s| ==> s[j] == l[j];
    FindSkips(s, ':', 0, |s|);
    StripIsTrimmed(value);
    if s != [] {
      StripOfClean(s);
    }
    StripOfClean(DEFAULT_PROVIDER);
  }

  /** Bare or with "models/", with or without the provider, and spaced at will: all spell the same model. */
  lemma SpellingsOfAModel(use: Use, m: string, a: string, b: string, c: string, d: string, prefix: string)
    requires IsModelId(m) && Spaces(a) && Spaces(b) && Spaces(c) && Spaces(d)
    requires prefix == "" || prefix == "models/"
    ensures var answer := if Selectable(use, m) then Ok(DEFAULT_PROVIDER + ":" + m) else Err(NotSelectable);
            && ValidateSpec(use, a + (prefix + m) + d) == answer
            && ValidateSpec(use, (a + DEFAULT_PROVIDER + b) + ":" + (c + (prefix + m) + d)) == answer
  {
    BareSpelling(m, a, d, prefix);
    FullSpelling(m, a, b, c, d, prefix);
    var left, right := a + DEFAULT_PROVIDER + b, c + (prefix + m) + d;
    StripOfSplit(left, right);
  }

  lemma BareSpelling(m: string, a: string, d: string, prefix: string)
    requires IsModelId(m) && Spaces(a) && Spaces(d)
    requires prefix == "" || prefix == "models/"
    ensures ParseSpec(a + (prefix + m) + d) == ("google_genai", m) && Strip(a + (prefix + m) + d) != []
  {
    PrefixedIsTrimmed(m, prefix);
    StripDropsSpaces(a, prefix + m, d);
    SpacesHaveNoColon(a);
    SpacesHaveNoColon(d);
    ParseBare(a + (prefix + m) + d);
  }

  lemma FullSpelling(m: string, a: string, b: string, c: string, d: string, prefix: string)
    requires IsModelId(m) && Spaces(a) && Spaces(b) && Spaces(c) && Spaces(d)
    requires prefix == "" || prefix == "models/"
    ensures ParseSpec((a + DEFAULT_PROVIDER + b) + ":" + (c + (prefix + m) + d)) == ("google_genai", m)
  {
    PrefixedIsTrimmed(m, prefix);
    StripDropsSpaces(c, prefix + m, d);
    StripDropsSpaces(a, DEFAULT_PROVIDER, b);
    SpacesHaveNoColon(a);
    SpacesHaveNoColon(b);
    assert NoColon(DEFAULT_PROVIDER);
    assert NoColon(a + DEFAULT_PROVIDER + b);
    ParseSpecSplitsAtTheFirstColon(a + DEFAULT_PROVIDER + b, c + (prefix + m) + d);
  }

  /** One or more of a-z, 0-9, dot and hyphen, the first one a letter or a digit. */
  ghost predicate IsWellFormed(m: string) {
    |m| >= 1 && m[0] != '.' && m[0] != '-' && forall c :: c in m ==> IsIdCharacter(c as int)
  }

  predicate IsIdCharacter(code: int) {
    97 <= code <= 122 || 48 <= code <= 57 || code == 46 || code == 45
  }

  lemma IdsAreWellFormed(m: string)
    ensures IsModelId(m) <==> IsWellFormed(m)
  {
    if IsWellFormed(m) {
      assert m[0] in m;
      forall i | 0 <= i < |m|
        ensures IsIdChar(m[i])
      {
        assert m[i] in m;
      }
    }
  }

  /**
   Which specs are accepted, and what a refusal is about: a blank text, another provider, a model
   id that is none, and for the processor alone a model without a rate-limit budget, in this order.
   */
  lemma AcceptedSpecsAre(use: Use, value: string)
    ensures var (provider, m) := ParseSpec(value);
            ValidateSpec(use, value) ==
              if Strip(value) == "" then Err(EmptySpec)
              else if provider != "google_genai" then Err(UnsupportedProvider)
              else if !IsWellFormed(m) then Err(MalformedModel)
              else if use == Processor
                      && m != "gemma-4-31b-it" && m != "gemma-4-26b-a4b-it"
                      && m != "gemini-3.5-flash-lite" && m != "gemini-3.1-flash-lite" then Err(NotSelectable)
              else Ok("google_genai" + ":" + m)
  {
    IdsAreWellFormed(ParseSpec(value).1);
  }

  lemma SpacesHaveNoColon(s: string)
    requires Spaces(s)
    ensures NoColon(s)
  {
  }

  lemma PrefixedIsTrimmed(m: string, prefix: string)
    requires IsModelId(m) && (prefix == "" || prefix == "models/")
    ensures Trimmed(prefix + m) && prefix + m != [] && NoColon(prefix + m)
    ensures RemovePrefix(prefix + m, MODELS_PREFIX) == m
  {
    IdHasNoPrefix(m);
    var text := prefix + m;
    assert IsIdChar(m[|m| - 1]) && text[|text| - 1] == m[|m| - 1];
    if prefix == "" {
      assert text == m;
    } else {
      assert text[|prefix|..] == m;
    }
  }

  // --- The environment form of a list -----------------------------------------------------------------

  /** The pieces between commas, from index i on. */
  function Pieces(s: string, i: nat): seq<string>
    requires i <= |s|
    decreases |s| - i
  {
    var k := Find(s, ',', i);
    if k == |s| then [s[i..]] else [s[i..k]] + Pieces(s, k + 1)
  }

  function NonEmpty(pieces: seq<string>): seq<string> {
    if pieces == [] then []
    else
      var v := Strip(pieces[0]);
      (if v != [] then [v] else []) + NonEmpty(pieces[1..])
  }

  function SplitEnvList(value: string): seq<string> {
    NonEmpty(Pieces(value, 0))
  }

  function Join(list: seq<string>): string {
    if list == [] then "" else if |list| == 1 then list[0] else list[0] + "," + Join(list[1..])
  }

  predicate NoComma(s: string) {
    forall i :: 0 <= i < |s| ==> s[i] != ','
  }

  /** No comma, and nothing to strip. */
  predicate Clean(s: string) {
    s != [] && !IsSpace(s[0]) && !IsSpace(s[|s| - 1]) && NoComma(s)
  }

  lemma {:induction false} FindFrom(a: string, b: string, c: char, i: nat)
    requires i <= |b|
    ensures Find(a + b, c, |a| + i) == |a| + Find(b, c, i)
    decreases |b| - i
  {
    if i < |b| && b[i] != c {
      assert (a + b)[|a| + i] == b[i];
      FindFrom(a, b, c, i + 1);
    } else if i < |b| {
      assert (a + b)[|a| + i] == b[i];
    }
  }

  lemma {:induction false} PiecesFrom(a: string, b: string, i: nat)
    requires i <= |b|
    ensures Pieces(a + b, |a| + i) == Pieces(b, i)
    decreases |b| - i
  {
    FindFrom(a, b, ',', i);
    var k := Find(b, ',', i);
    assert (a + b)[|a| + i..|a| + k] == b[i..k];
    if k < |b| {
      PiecesFrom(a, b, k + 1);
    } else {
      assert (a + b)[|a| + i..] == b[i..];
    }
  }

  predicate AllClean(list: seq<string>) {
    forall i :: 0 <= i < |list| ==> Clean(list[i])
  }

  lemma OnePiece(s: string)
    requires NoComma(s)
    ensures Pieces(s, 0) == [s]
  {
    FindSkips(s, ',', 0, |s|);
  }

  lemma FirstPiece(head: string, rest: string)
    requires NoComma(head)
    ensures Pieces(head + "," + rest, 0) == [head] + Pieces(rest, 0)
  {
    var s := head + "," + rest;
    assert forall j :: 0 <= j < |head| ==> s[j] == head[j];
    assert s[|head|] == ',';
    FindSkips(s, ',', 0, |head|);
    PiecesFrom(head + ",", rest, 0);
    assert s[0..|head|] == head;
  }

  /** Item by item: each stretch between commas is stripped, and one with nothing left in it is dropped. */
  lemma SplitsAtTheFirstComma(head: string, rest: string)
    requires NoComma(head)
    ensures SplitEnvList(head) == if Strip(head) == "" then [] else [Strip(head)]
    ensures SplitEnvList(head + "," + rest) == SplitEnvList(head) + SplitEnvList(rest)
  {
    OnePiece(head);
    FirstPiece(head, rest);
    OneMorePiece(head, Pieces(rest, 0));
    OneMorePiece(head, []);
    assert [head] + [] == [head];
  }

  lemma OneMorePiece(head: string, pieces: seq<string>)
    ensures NonEmpty([head] + pieces) == (if Strip(head) == "" then [] else [Strip(head)]) + NonEmpty(pieces)
  {
    assert ([head] + pieces)[1..] == pieces;
  }

  lemma KeepsClean(head: string, pieces: seq<string>)
    requires Clean(head)
    ensures NonEmpty([head] + pieces) == [head] + NonEmpty(pieces)
  {
    StripOfClean(head);
    assert ([head] + pieces)[1..] == pieces;
  }

  /** Joining a list of clean items and splitting the text gives the list back. */
  lemma {:induction false} SplitOfJoin(list: seq<string>)
    requires AllClean(list)
    ensures SplitEnvList(Join(list)) == list
  {
    if list == [] {
      assert Pieces("", 0) == [""];
      assert [""][1..] == [];
    } else if |list| == 1 {
      OnePiece(list[0]);
      KeepsClean(list[0], []);
      assert [list[0]] + [] == [list[0]] == list;
    } else {
      SplitOfJoin(list[1..]);
      FirstPiece(list[0], Join(list[1..]));
      KeepsClean(list[0], Pieces(Join(list[1..]), 0));
      assert list == [list[0]] + list[1..];
    }
  }

  lemma NormalIsClean(use: Use, s: string)
    requires Normal(use, s)
    ensures Clean(s)
  {
    var k :| 0 <= k <= |s| && s[..k] == DEFAULT_PROVIDER + ":" && IsModelId(s[k..]) && Selectable(use, s[k..]);
    assert s[0] == s[..k][0] == 'g';
    assert s[|s| - 1] == s[k..][|s| - k - 1] && IsIdChar(s[|s| - 1]);
    forall i | 0 <= i < |s|
      ensures s[i] != ','
    {
      if i < k {
        assert s[i] == (DEFAULT_PROVIDER + ":")[i];
      } else {
        assert s[i] == s[k..][i - k];
      }
    }
  }

  predicate AllNormal(use: Use, list: seq<string>) {
    forall i :: 0 <= i < |list| ==> Normal(use, list[i])
  }

  lemma NormalListIsClean(use: Use, list: seq<string>)
    requires AllNormal(use, list)
    ensures AllClean(list)
  {
    forall i | 0 <= i < |list|
      ensures Clean(list[i])
    {
      NormalIsClean(use, list[i]);
    }
  }

  /** A validated backup list survives the trip through the environment variable. */
  lemma BackupsSurviveTheEnvironment(use: Use, backups: seq<string>)
    requires AllNormal(use, backups)
    ensures SplitEnvList(Join(backups)) == backups
  {
    NormalListIsClean(use, backups);
    SplitOfJoin(backups);
  }
}
