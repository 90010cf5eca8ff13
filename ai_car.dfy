/**
 * The agent-driven car: a vehicle plus the discrete action chosen for the next input step.
 *
 * Actions: 0 nothing, 1 gas, 2 gas + left, 3 gas + right, 4 reverse; anything else does
 * nothing. The vehicle is held as a component rather than a base class.
 */
module AiCar {
  import opened Geometry
  import opened Vehicles

  /** Below this magnitude the steering actions do not turn the car. */
  const SteerSpeed: real := 0.5
  const CarWidth: real := 30.0
  const CarHeight: real := 15.0

  /** (speed, angle) after one input step for `action`. */
  function InputEffect(action: int, speed: real, angle: real): (real, real)
  {
    if action == 1 then
      (Accelerated(speed, Acceleration), angle)
    else if action == 2 then
      var s := Accelerated(speed, Acceleration);
      (s, if Abs(s) > SteerSpeed then angle - RotationSpeed else angle)
    else if action == 3 then
      var s := Accelerated(speed, Acceleration);
      (s, if Abs(s) > SteerSpeed then angle + RotationSpeed else angle)
    else if action == 4 then
      (Accelerated(speed, -Acceleration), angle)
    else
      (speed, angle)
  }

  /** Action 0 and every value outside 1..4 change neither speed nor heading. */
  lemma IdleActions(action: int, speed: real, angle: real)
    requires !(1 <= action <= 4)
    ensures InputEffect(action, speed, angle) == (speed, angle)
  {
  }

  /** Gas and reverse never turn the car; gas never slows it below its speed (up to the cap)
      and reverse never speeds it up. */
  lemma ThrottleActions(speed: real, angle: real)
    requires SpeedInRange(speed)
    ensures InputEffect(1, speed, angle).1 == angle && InputEffect(4, speed, angle).1 == angle
    ensures InputEffect(1, speed, angle).0 >= speed && InputEffect(4, speed, angle).0 <= speed
    ensures InputEffect(4, speed, angle).0 >= -MaxSpeed * 0.5
  {
  }

  /** Steering accelerates like gas, then turns by exactly RotationSpeed (left negative) when
      and only when the new speed exceeds SteerSpeed in magnitude. */
  lemma SteeringActions(speed: real, angle: real)
    ensures InputEffect(2, speed, angle).0 == InputEffect(1, speed, angle).0
    ensures InputEffect(3, speed, angle).0 == InputEffect(1, speed, angle).0
    ensures InputEffect(2, speed, angle).1 != angle <==> Abs(InputEffect(1, speed, angle).0) > SteerSpeed
    ensures InputEffect(3, speed, angle).1 != angle <==> Abs(InputEffect(1, speed, angle).0) > SteerSpeed
    ensures InputEffect(2, speed, angle).1 == angle || InputEffect(2, speed, angle).1 == angle - RotationSpeed
    ensures InputEffect(3, speed, angle).1 == angle || InputEffect(3, speed, angle).1 == angle + RotationSpeed
  {
  }

  /** No action takes an in-range speed out of range. */
  lemma InputKeepsSpeedRange(action: int, speed: real, angle: real)
    requires SpeedInRange(speed)
    ensures SpeedInRange(InputEffect(action, speed, angle).0)
  {
  }

  class AICar {
    const body: Vehicle
    var currentAction: int

    constructor (x: real, y: real)
      ensures fresh(body) && currentAction == 0
      ensures body.x == x && body.y == y && body.speed == 0.0 && body.angle == 0.0
      ensures body.width == CarWidth && body.height == CarHeight
    {
      body := new Vehicle(x, y, CarWidth, CarHeight);
      currentAction := 0;
    }

    /** Stores the action for the next input step; nothing else changes. */
    method SetAction(action: int)
      modifies this
      ensures currentAction == action
    {
      currentAction := action;
    }

    /** Applies the stored action through the vehicle's mutators. */
    method HandleInput()
      modifies body
      ensures (body.speed, body.angle) == InputEffect(currentAction, old(body.speed), old(body.angle))
      ensures body.x == old(body.x) && body.y == old(body.y)
    {
      var action := currentAction;
      if action == 1 {
        body.Accelerate(Acceleration);
      } else if action == 2 {
        body.Accelerate(Acceleration);
        if Abs(body.speed) > SteerSpeed {
          body.Rotate(-RotationSpeed);
        }
      } else if action == 3 {
        body.Accelerate(Acceleration);
        if Abs(body.speed) > SteerSpeed {
          body.Rotate(RotationSpeed);
        }
      } else if action == 4 {
        body.Accelerate(-Acceleration);
      }
    }

    /** One simulation tick: input, friction, movement. */
    method Update(dt: real, dir: real -> (real, real))
      modifies body
      ensures body.speed == Friction(InputEffect(currentAction, old(body.speed), old(body.angle)).0)
      ensures body.angle == InputEffect(currentAction, old(body.speed), old(body.angle)).1
      ensures (body.x, body.y) == Moved((old(body.x), old(body.y)), body.speed, dir(body.angle))
    {
      HandleInput();
      body.ApplyFriction();
      body.UpdatePosition(dt, dir);
    }
  }
}
