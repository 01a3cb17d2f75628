/** What the operators ask of a scene object before they act on it. */
module Scene {

  /** The `type` of a scene object: the operators test for ARMATURE and GPENCIL. */
  datatype ObjectKind = Armature | GreasePencil | OtherKind(typeName: string)
}
