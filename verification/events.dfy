/** The window events the engine reacts to (a subset of sf::Event). */
module Events {
  datatype MouseButton = Left | Right | Middle | XButton1 | XButton2

  datatype Key = Return | OtherKey

  datatype Event =
    | MouseButtonPressed(button: MouseButton)
    | MouseButtonReleased(button: MouseButton)
    | TextEntered(unicode: nat)
    | KeyPressed(code: Key)
    | OtherEvent
}
