/** Engine value types used by the scripts. Float components are carried as `real`;
    the mesh passes copy these values around without computing with them. */
module UnityTypes {

  datatype Vector2 = Vector2(x: real, y: real)

  datatype Vector3 = Vector3(x: real, y: real, z: real)

  datatype Vector4 = Vector4(x: real, y: real, z: real, w: real)

  datatype Color = Color(r: real, g: real, b: real, a: real)

  /** `Color.white`: opaque white. */
  const White := Color(1.0, 1.0, 1.0, 1.0)

  /** `Color.clear`: fully transparent black. */
  const Clear := Color(0.0, 0.0, 0.0, 0.0)

  /** A value that may be missing (a null reference, or an exception that was not raised). */
  datatype Option<+T> = None | Some(value: T)
}
