/** Keyboard keys the title editors react to. */
module UiKeys {
  datatype Key = Enter | Escape | OtherKey
}
