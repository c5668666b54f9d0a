/** Exception codes and access modes. */
module Exceptions {

  datatype Mode = InstFetch | DataLoad | DataStore | Any

  datatype Code = Int | Mod | TLBL | TLBS | AdEL | AdES | IBE | DBE | Sys | Bp | RI | CpU | Ov

  // The value of the exception code field of the Cause register.
  function Number(code: Code): bv32 {
    match code
    case Int => 0 case Mod => 1 case TLBL => 2 case TLBS => 3 case AdEL => 4 case AdES => 5 case IBE => 6
    case DBE => 7 case Sys => 8 case Bp => 9 case RI => 10 case CpU => 11 case Ov => 12
  }
}
