/** The health bar of a character (src/Utils/HealthBar.py): an integer
    health value, clamped at 0 when reduced and at 100 when increased. */
module HealthBar {

  const MaxHealth: int := 100

  datatype HealthBar = HealthBar(health: int)

  /** The constructor stores the starting health as given: no clamping. */
  function NewHealthBar(health: int): (b: HealthBar)
    ensures b.health == health
    ensures InRange(b) <==> 0 <= health <= MaxHealth
  {
    HealthBar(health)
  }

  /** `reduce_health`: subtract, then raise a negative result to 0. */
  function ReduceHealth(b: HealthBar, amount: int): (r: HealthBar)
    ensures r.health >= 0
    ensures r.health >= b.health - amount
    ensures r.health == b.health - amount || r.health == 0
    ensures b.health - amount >= 0 ==> r.health == b.health - amount
  {
    var h := b.health - amount;
    if h < 0 then HealthBar(0) else HealthBar(h)
  }

  /** `increase_health`: add, then lower a result above 100 to 100. */
  function IncreaseHealth(b: HealthBar, amount: int): (r: HealthBar)
    ensures r.health <= MaxHealth
    ensures r.health <= b.health + amount
    ensures r.health == b.health + amount || r.health == MaxHealth
    ensures b.health + amount <= MaxHealth ==> r.health == b.health + amount
  {
    var h := b.health + amount;
    if h > MaxHealth then HealthBar(MaxHealth) else HealthBar(h)
  }

  predicate InRange(b: HealthBar)
  {
    0 <= b.health <= MaxHealth
  }

  /** One heal or damage call with a non-negative amount. */
  datatype HealthOp = Damage(amount: nat) | Heal(amount: nat)

  function Step(b: HealthBar, op: HealthOp): HealthBar
  {
    match op
    case Damage(a) => ReduceHealth(b, a)
    case Heal(a) => IncreaseHealth(b, a)
  }

  function ApplyAll(b: HealthBar, ops: seq<HealthOp>): HealthBar
    decreases |ops|
  {
    if |ops| == 0 then b else ApplyAll(Step(b, ops[0]), ops[1..])
  }

  /** A single call with a non-negative amount keeps health in 0..100. */
  lemma StepKeepsRange(b: HealthBar, op: HealthOp)
    requires InRange(b)
    ensures InRange(Step(b, op))
  {
  }

  /** Any sequence of heal and damage calls with non-negative amounts keeps
      health in 0..100. */
  lemma {:induction false} ApplyAllKeepsRange(b: HealthBar, ops: seq<HealthOp>)
    requires InRange(b)
    ensures InRange(ApplyAll(b, ops))
    decreases |ops|
  {
    if |ops| > 0 {
      StepKeepsRange(b, ops[0]);
      ApplyAllKeepsRange(Step(b, ops[0]), ops[1..]);
    }
  }

  /** Damage on a bar that is already empty leaves it empty. */
  lemma ReduceAtZeroStaysZero(amount: nat)
    ensures ReduceHealth(HealthBar(0), amount).health == 0
  {
  }

  /** The clamps are one-sided: a non-positive amount is never clamped on
      a bar inside its clamp's side, so reducing by a negative amount lifts
      a full bar above 100 and increasing by one sinks an empty bar below 0. */
  lemma ClampsAreOneSided(b: HealthBar, amount: int)
    requires amount <= 0
    ensures b.health >= 0 ==> ReduceHealth(b, amount).health == b.health - amount
    ensures b.health <= MaxHealth ==> IncreaseHealth(b, amount).health == b.health + amount
    ensures amount < 0 && b.health == MaxHealth ==> !InRange(ReduceHealth(b, amount))
    ensures amount < 0 && b.health == 0 ==> !InRange(IncreaseHealth(b, amount))
  {
  }
}
