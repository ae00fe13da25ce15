/**
 * The rank ladder and the experience rule applied when an exam ends
 * (the pure part of `update_user_level`).
 *
 * The rule is stated for any ladder of pairwise different rank names (`Advance`), and the
 * app's rule is that rule on its own five-rank ladder (`Promote`).
 */
module Leveling {
  import opened Wrappers

  /** The app's ladder of ranks, lowest first, exactly as the strings are stored in a user document. */
  const Ranks: seq<string> :=
    ["Nivel 1 (Novato)", "Nivel 2 (Estudiante)", "Nivel 3 (Interno)", "Nivel 4 (Residente)", "Nivel 5 (Especialista)"]

  /** Rank and experience of a user whose document lacks the field. */
  const DefaultLevel: string := "Nivel 1 (Novato)"
  const DefaultXp: int := 0

  /** Experience earned by every passed exam. */
  const PassReward: int := 10

  /** The message `update_user_level` returns, before it is rendered as text. */
  datatype Message = LevelUp(level: string) | KeepPractising | NoMessage

  /** The text of each message, as the user sees it. */
  function Text(m: Message): (t: string)
    ensures t == "" <==> m == NoMessage
  {
    match m
    case LevelUp(level) => "¡Has subido de nivel! Ahora eres: " + level + " 🌟"
    case KeepPractising => "Sigue practicando para subir de nivel."
    case NoMessage => ""
  }

  /** What an exam outcome leaves behind: the new rank, the new experience and the message shown. */
  datatype Outcome = Outcome(level: string, xp: int, msg: Message)

  /**
   * Python's `list.index`: the position of the first occurrence of `x` in `s`;
   * `None` where Python raises `ValueError`.
   */
  function IndexOf(s: seq<string>, x: string): (r: Option<nat>)
    ensures r.None? <==> x !in s
    ensures r.Some? ==> r.value < |s| && s[r.value] == x && x !in s[..r.value]
  {
    if |s| == 0 then None
    else if s[0] == x then Some(0)
    else match IndexOf(s[1..], x)
      case None => None
      case Some(i) =>
        assert s[..i + 1] == [s[0]] + s[1..][..i];
        Some(i + 1)
  }

  /** No rank name occurs twice on the ladder. */
  ghost predicate Distinct(ladder: seq<string>) {
    forall i, j :: 0 <= i < j < |ladder| ==> ladder[i] != ladder[j]
  }

  /**
   * The transition of `update_user_level` on the stored (level, xp) pair, for a given ladder.
   * A failed exam changes nothing. A passed exam earns the reward and moves one rank up,
   * unless the rank is the top one or is not on the ladder at all (the lookup's exception is swallowed).
   */
  function Advance(ladder: seq<string>, level: string, xp: int, passed: bool): (r: Outcome)
    ensures r.xp == if passed then xp + PassReward else xp
    ensures !passed ==> r == Outcome(level, xp, KeepPractising)
    ensures r.level != level ==> passed && level in ladder && r.level in ladder && r.msg == LevelUp(r.level)
    ensures passed ==> r.msg == NoMessage || r.msg == LevelUp(r.level)
    ensures Distinct(ladder) && passed && r.level == level ==> r.msg == NoMessage
  {
    if !passed then Outcome(level, xp, KeepPractising)
    else
      match IndexOf(ladder, level)
      case Some(i) =>
        if i < |ladder| - 1 then Outcome(ladder[i + 1], xp + PassReward, LevelUp(ladder[i + 1]))
        else Outcome(level, xp + PassReward, NoMessage)
      case None => Outcome(level, xp + PassReward, NoMessage)
  }

  /** The app's rule: `Advance` on the five-rank ladder. */
  function Promote(level: string, xp: int, passed: bool): (r: Outcome)
    ensures r.level in Ranks <==> level in Ranks
  {
    Advance(Ranks, level, xp, passed)
  }

  /** On a ladder without repeats, looking up the rank at position `i` finds position `i`. */
  lemma IndexOfDistinct(ladder: seq<string>, i: nat)
    requires Distinct(ladder) && i < |ladder|
    ensures IndexOf(ladder, ladder[i]) == Some(i)
  {
    var j := IndexOf(ladder, ladder[i]).value;
    assert forall k :: 0 <= k < j ==> ladder[k] in ladder[..j];
  }

  /** The app's five rank strings are pairwise different. */
  lemma RanksDistinct()
    ensures Distinct(Ranks)
  {
  }

  /** One passed exam from position `i` of a ladder without repeats lands on position `min(i + 1, top)` with 10 more XP. */
  lemma PassOneStep(ladder: seq<string>, i: nat, xp: int)
    requires Distinct(ladder) && i < |ladder|
    ensures var r := Advance(ladder, ladder[i], xp, true);
      && r.level == ladder[if i < |ladder| - 1 then i + 1 else i]
      && r.xp == xp + PassReward
      && r.msg == (if i < |ladder| - 1 then LevelUp(ladder[i + 1]) else NoMessage)
  {
    IndexOfDistinct(ladder, i);
  }

  /** Passing below the top rank earns exactly the reward and moves to the next rank, with the level-up message. */
  lemma PassBelowTopAdvances(i: nat, xp: int)
    requires i < |Ranks| - 1
    ensures Promote(Ranks[i], xp, true) == Outcome(Ranks[i + 1], xp + PassReward, LevelUp(Ranks[i + 1]))
  {
    RanksDistinct();
    PassOneStep(Ranks, i, xp);
  }

  /** Passing at the top rank earns the reward, keeps the rank and says nothing. */
  lemma PassAtTopStays(xp: int)
    ensures Promote("Nivel 5 (Especialista)", xp, true) == Outcome("Nivel 5 (Especialista)", xp + PassReward, NoMessage)
  {
    RanksDistinct();
    PassOneStep(Ranks, |Ranks| - 1, xp);
  }

  /** Passing with a level that is not on the ladder earns the reward but never moves, and says nothing. */
  lemma PassOffLadderStays(level: string, xp: int)
    requires level !in Ranks
    ensures Promote(level, xp, true) == Outcome(level, xp + PassReward, NoMessage)
  {
  }

  /** Failing keeps rank and experience and returns the encouragement message. */
  lemma FailKeepsProgress(level: string, xp: int)
    ensures Promote(level, xp, false) == Outcome(level, xp, KeepPractising)
    ensures Text(Promote(level, xp, false).msg) == "Sigue practicando para subir de nivel."
  {
  }

  /** After a passed exam the message is non-empty exactly when the rank changed. */
  lemma PassMessageIffAdvanced(level: string, xp: int)
    ensures var r := Promote(level, xp, true); Text(r.msg) != "" <==> r.level != level
  {
    if level in Ranks {
      RanksDistinct();
      PassOneStep(Ranks, IndexOf(Ranks, level).value, xp);
    }
  }

  /** The rank a level string stands for; levels off the ladder have none. */
  function RankOf(level: string): (r: Option<nat>)
    ensures r.Some? <==> level in Ranks
    ensures r.Some? ==> r.value < |Ranks| && Ranks[r.value] == level
  {
    IndexOf(Ranks, level)
  }

  /** A rank on the ladder stays on it, and one outcome never moves it by more than one step up. */
  lemma NeverSkipsRank(level: string, xp: int, passed: bool)
    requires level in Ranks
    ensures var r := Promote(level, xp, passed);
      && r.level in Ranks
      && RankOf(r.level).value == (if passed && RankOf(level).value < |Ranks| - 1 then RankOf(level).value + 1 else RankOf(level).value)
      && r.xp >= xp
  {
    RanksDistinct();
    var i := RankOf(level).value;
    PassOneStep(Ranks, i, xp);
    IndexOfDistinct(Ranks, if passed && i < |Ranks| - 1 then i + 1 else i);
  }

  /** The (level, xp) pair after `k` passed exams in a row on a given ladder. */
  function PassRepeatedly(ladder: seq<string>, level: string, xp: int, k: nat): (r: (string, int))
    decreases k
  {
    if k == 0 then (level, xp)
    else
      var r := Advance(ladder, level, xp, true);
      PassRepeatedly(ladder, r.level, r.xp, k - 1)
  }

  /** The first of `k` passes is one application of the rule. */
  lemma FirstPass(ladder: seq<string>, level: string, xp: int, k: nat)
    requires k > 0
    ensures var r := Advance(ladder, level, xp, true);
      PassRepeatedly(ladder, level, xp, k) == PassRepeatedly(ladder, r.level, r.xp, k - 1)
  {
  }

  /** `k` passes from position `i` climb `k` ranks, held at the top, and earn 10 XP each: no rank is skipped. */
  lemma {:induction false} ClimbLadder(ladder: seq<string>, i: nat, xp: int, k: nat)
    requires Distinct(ladder) && i < |ladder|
    ensures PassRepeatedly(ladder, ladder[i], xp, k).0 == ladder[if i + k < |ladder| then i + k else |ladder| - 1]
    ensures PassRepeatedly(ladder, ladder[i], xp, k).1 == xp + PassReward * k
    decreases k
  {
    if k > 0 {
      var next := if i < |ladder| - 1 then i + 1 else i;
      FirstPass(ladder, ladder[i], xp, k);
      PassOneStep(ladder, i, xp);
      assert PassRepeatedly(ladder, ladder[i], xp, k) == PassRepeatedly(ladder, ladder[next], xp + PassReward, k - 1);
      ClimbLadder(ladder, next, xp + PassReward, k - 1);
    }
  }

  /** On the app's ladder, `k` passes from a new user's rank reach `Ranks[min(k, 4)]` with `10 * k` XP. */
  lemma ClimbFromNovice(k: nat)
    ensures PassRepeatedly(Ranks, "Nivel 1 (Novato)", 0, k).0 == Ranks[if k < 4 then k else 4]
    ensures PassRepeatedly(Ranks, "Nivel 1 (Novato)", 0, k).1 == PassReward * k
  {
    RanksDistinct();
    ClimbLadder(Ranks, 0, 0, k);
  }
}
