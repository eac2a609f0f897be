/** The standalone player component (components/player.tsx): a horizontal
    position moved 10 pixels per arrow key and clamped to the window. */
module PlayerComponent {

  const StepSize: real := 10.0
  const PlayerWidth: real := 50.0
  const InitialPosition: real := 0.0

  /** The position after one key press, in a window `screenWidth` wide. */
  function KeyDown(position: real, key: string, screenWidth: real): (r: real)
    ensures key == "ArrowLeft" ==> r >= 0.0
    ensures key == "ArrowLeft" && position >= StepSize ==> r == position - StepSize
    ensures key == "ArrowLeft" && position < StepSize ==> r == 0.0
    ensures key == "ArrowRight" ==> r <= screenWidth - PlayerWidth
    ensures key == "ArrowRight" && position + StepSize <= screenWidth - PlayerWidth ==> r == position + StepSize
    ensures key == "ArrowRight" && position + StepSize > screenWidth - PlayerWidth ==> r == screenWidth - PlayerWidth
    ensures key != "ArrowLeft" && key != "ArrowRight" ==> r == position
  {
    if key == "ArrowLeft" then
      (if position - StepSize > 0.0 then position - StepSize else 0.0)
    else if key == "ArrowRight" then
      (if position + StepSize < screenWidth - PlayerWidth then position + StepSize else screenWidth - PlayerWidth)
    else position
  }

  /** The position after a sequence of key presses. */
  function KeyDowns(position: real, keys: seq<string>, screenWidth: real): (r: real)
    decreases |keys|
  {
    if keys == [] then position else KeyDowns(KeyDown(position, keys[0], screenWidth), keys[1..], screenWidth)
  }

  /** A player inside the window stays inside it, whatever keys are pressed. */
  lemma {:induction false} StaysInWindow(position: real, keys: seq<string>, screenWidth: real)
    requires PlayerWidth <= screenWidth
    requires 0.0 <= position <= screenWidth - PlayerWidth
    ensures 0.0 <= KeyDowns(position, keys, screenWidth) <= screenWidth - PlayerWidth
    decreases |keys|
  {
    if keys != [] {
      StaysInWindow(KeyDown(position, keys[0], screenWidth), keys[1..], screenWidth);
    }
  }

  /** From the initial position the player is always inside a window at
      least as wide as the player. */
  lemma AlwaysInWindow(keys: seq<string>, screenWidth: real)
    requires PlayerWidth <= screenWidth
    ensures 0.0 <= KeyDowns(InitialPosition, keys, screenWidth) <= screenWidth - PlayerWidth
  {
    StaysInWindow(InitialPosition, keys, screenWidth);
  }
}
