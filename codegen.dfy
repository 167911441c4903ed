/** Bundle codes (`gen_code`): fixed-length strings over upper-case letters
    and digits, drawn at random until one is not yet a key of the media
    store. The random draws are an input: a stream of indices into the
    alphabet, `length` of them per candidate. */
module CodeGen {

  import opened Model

  /** `string.ascii_uppercase + string.digits`. */
  const Alphabet: string := "ABCDEFGHIJKLMNOPQRSTUVWXYZ0123456789"

  /** The default `length` of `gen_code`, the one every caller uses. */
  const CodeLength: nat := 6

  /** One `random.choice(chars)`: the index of the character chosen. */
  type Pick = i: nat | i < 36

  predicate IsCode(c: string, length: nat) {
    |c| == length && forall i :: 0 <= i < |c| ==> c[i] in Alphabet
  }

  /** The candidate spelled by a run of draws. */
  function Spell(picks: seq<Pick>): (c: string)
    ensures IsCode(c, |picks|)
  {
    seq(|picks|, i requires 0 <= i < |picks| => Alphabet[picks[i]])
  }

  /** The candidates the stream of draws yields, one per `length` draws;
      a trailing incomplete run yields none. */
  function Candidates(draws: seq<Pick>, length: nat): (cs: seq<string>)
    requires length > 0
    decreases |draws|
  {
    if |draws| < length then [] else [Spell(draws[..length])] + Candidates(draws[length..], length)
  }

  /** What the retry loop returns when fed the stream: the first candidate
      not in `taken`, or None if the stream runs out first. A candidate of
      length 0 is always the empty string, so then the loop either returns
      it at once or never ends (None). */
  function FirstFresh(taken: set<string>, length: nat, draws: seq<Pick>): Option<string>
    decreases |draws|
  {
    if length == 0 then (if "" in taken then None else Some(""))
    else if |draws| < length then None
    else
      var c := Spell(draws[..length]);
      if c !in taken then Some(c) else FirstFresh(taken, length, draws[length..])
  }

  predicate AllTaken(cs: seq<string>, taken: set<string>) {
    forall j :: 0 <= j < |cs| ==> cs[j] in taken
  }

  /** c is the first element of cs that is not taken. */
  predicate FirstUntaken(cs: seq<string>, taken: set<string>, c: string) {
    exists k :: 0 <= k < |cs| && cs[k] == c && c !in taken && AllTaken(cs[..k], taken)
  }

  /** The loop's answer is a code of the requested length that is not
      taken. */
  lemma {:induction false} FirstFreshSound(taken: set<string>, length: nat, draws: seq<Pick>)
    ensures FirstFresh(taken, length, draws).Some? ==>
              IsCode(FirstFresh(taken, length, draws).value, length) &&
              FirstFresh(taken, length, draws).value !in taken
    decreases |draws|
  {
    if length > 0 && |draws| >= length && Spell(draws[..length]) in taken {
      FirstFreshSound(taken, length, draws[length..]);
    }
  }

  /** The loop finds nothing exactly when every candidate of the stream is
      already taken. */
  lemma {:induction false} FirstFreshNone(taken: set<string>, length: nat, draws: seq<Pick>)
    requires length > 0
    ensures FirstFresh(taken, length, draws).None? <==> AllTaken(Candidates(draws, length), taken)
    decreases |draws|
  {
    if |draws| >= length {
      var c := Spell(draws[..length]);
      var rest := Candidates(draws[length..], length);
      var cs := Candidates(draws, length);
      assert cs == [c] + rest;
      FirstFreshNone(taken, length, draws[length..]);
      if c in taken {
        assert AllTaken(rest, taken) ==> AllTaken(cs, taken) by {
          if AllTaken(rest, taken) {
            forall j | 0 <= j < |cs| ensures cs[j] in taken {
              if j > 0 { assert cs[j] == rest[j - 1]; }
            }
          }
        }
        assert AllTaken(cs, taken) ==> AllTaken(rest, taken) by {
          if AllTaken(cs, taken) {
            forall j | 0 <= j < |rest| ensures rest[j] in taken {
              assert rest[j] == cs[j + 1];
            }
          }
        }
      } else {
        assert cs[0] == c;
      }
    }
  }

  /** When the loop answers, its answer is the first candidate that is not
      taken: every earlier candidate was taken. */
  lemma {:induction false} FirstFreshFirst(taken: set<string>, length: nat, draws: seq<Pick>)
    requires length > 0
    requires FirstFresh(taken, length, draws).Some?
    ensures FirstUntaken(Candidates(draws, length), taken, FirstFresh(taken, length, draws).value)
    decreases |draws|
  {
    var c := Spell(draws[..length]);
    var rest := Candidates(draws[length..], length);
    var cs := Candidates(draws, length);
    assert cs == [c] + rest;
    if c in taken {
      FirstFreshFirst(taken, length, draws[length..]);
      var r := FirstFresh(taken, length, draws).value;
      var k :| 0 <= k < |rest| && rest[k] == r && r !in taken && AllTaken(rest[..k], taken);
      assert cs[k + 1] == r;
      assert cs[..k + 1] == [c] + rest[..k];
    } else {
      assert cs[..0] == [];
      assert cs[0] == c;
    }
  }

  /** One candidate, `"".join(random.choice(chars) for _ in range(length))`,
      spelled from the `length` draws starting at `pos`. */
  method DrawCandidate(draws: seq<Pick>, pos: nat, length: nat) returns (c: string)
    requires pos + length <= |draws|
    ensures c == Spell(draws[pos..pos + length])
  {
    c := "";
    var j := 0;
    while j < length
      invariant 0 <= j <= length
      invariant |c| == j
      invariant forall k :: 0 <= k < j ==> c[k] == Alphabet[draws[pos + k]]
    {
      c := c + [Alphabet[draws[pos + j]]];
      j := j + 1;
    }
    assert c == Spell(draws[pos..pos + length]);
  }

  /** `gen_code(length)`: draws candidates from the stream until one is
      not in `taken` (the keys of the media store). */
  method GenCode(taken: set<string>, length: nat, draws: seq<Pick>) returns (code: Option<string>)
    ensures code == FirstFresh(taken, length, draws)
    ensures code.Some? ==> IsCode(code.value, length) && code.value !in taken
  {
    if length == 0 {
      code := if "" in taken then None else Some("");
      return;
    }
    var pos := 0;
    while pos + length <= |draws|
      invariant pos <= |draws|
      invariant FirstFresh(taken, length, draws[pos..]) == FirstFresh(taken, length, draws)
      decreases |draws| - pos
    {
      var c := DrawCandidate(draws, pos, length);
      assert draws[pos..][..length] == draws[pos..pos + length];
      if c !in taken {
        code := Some(c);
        FirstFreshSound(taken, length, draws);
        return;
      }
      assert draws[pos..][length..] == draws[pos + length..];
      pos := pos + length;
    }
    code := None;
  }
}
