/** The conventional Some/None datatype, standing for a nullable reference
    or a LINQ `FirstOrDefault` that found nothing. */
module Optional {

  datatype Option<+T> = None | Some(value: T)

}
