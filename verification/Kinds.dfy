/** What an object is: the type bits of its flags. */
module Kinds {

  /** The type bits of an object's flags. */
  datatype Kind = Plain | Clone | Virtual | Camera | Pointer | Pointer3D

  function TypeBits(k: Kind): bv32 {
    match k
    case Plain => 0
    case Clone => 0x10000000
    case Virtual => 0x20000000
    case Camera => 0x90000000
    case Pointer => 0xA0000000
    case Pointer3D => 0xB0000000
  }

  const OF_VIRTUAL: bv32 := 0x20000000
  const OF_SYSTEM: bv32 := 0x80000000

  predicate Has(k: Kind, flag: bv32) { TypeBits(k) & flag != 0 }

  lemma FlagsOfKinds()
    ensures forall k :: Has(k, OF_VIRTUAL) <==> k == Virtual || k == Pointer || k == Pointer3D
    ensures forall k :: Has(k, OF_SYSTEM) <==> k == Camera || k == Pointer || k == Pointer3D
  {
    assert Has(Virtual, OF_VIRTUAL) && Has(Pointer, OF_VIRTUAL) && Has(Pointer3D, OF_VIRTUAL);
    assert !Has(Plain, OF_VIRTUAL) && !Has(Clone, OF_VIRTUAL) && !Has(Camera, OF_VIRTUAL);
    assert Has(Camera, OF_SYSTEM) && Has(Pointer, OF_SYSTEM) && Has(Pointer3D, OF_SYSTEM);
    assert !Has(Plain, OF_SYSTEM) && !Has(Clone, OF_SYSTEM) && !Has(Virtual, OF_SYSTEM);
    forall k ensures (Has(k, OF_VIRTUAL) <==> k == Virtual || k == Pointer || k == Pointer3D)
                  && (Has(k, OF_SYSTEM) <==> k == Camera || k == Pointer || k == Pointer3D)
    {
      match k
      case Plain =>
      case Clone =>
      case Virtual =>
      case Camera =>
      case Pointer =>
      case Pointer3D =>
    }
  }
}
