/**
 * The process-wide guard of `Slug::register`: the static `$registered` flag,
 * held here by an object that stands for the PHP process.
 */
module SlugRegistration {
  import opened Wrappers
  import opened SlugControl

  /** The name `register` installs the factory under when none is given. */
  const DefaultExtensionMethod := "addSlug"

  const AlreadyRegistered := "Slug control already registered."

  class Registration {
    /** `Slug::$registered`. */
    var registered: bool
    /** The container extension method installed by the successful registration. */
    var extensionMethod: Option<string>

    /** The flag is set exactly when a factory has been installed (installation
        is assumed never to fail). */
    ghost predicate Valid()
      reads this
    {
      registered <==> extensionMethod.Some?
    }

    /** A fresh process: nothing registered yet. */
    constructor ()
      ensures Valid() && !registered && extensionMethod == None
    {
      registered := false;
      extensionMethod := None;
    }

    /** `register`: the first call sets the flag and installs the factory under
        `name`; every later call throws `InvalidStateException`, whatever the
        name, and changes nothing. */
    method Register(name: string) returns (r: Outcome<Error>)
      requires Valid()
      modifies this
      ensures Valid() && registered
      ensures old(registered) ==> r == Fail(InvalidState(AlreadyRegistered)) && extensionMethod == old(extensionMethod)
      ensures !old(registered) ==> r == Pass && extensionMethod == Some(name)
    {
      if registered {
        return Fail(InvalidState(AlreadyRegistered));
      }
      registered := true;
      extensionMethod := Some(name);
      r := Pass;
    }
  }

  /** In one process exactly the first of two registrations succeeds: here the
      first uses the default name and the second any other name. */
  method RegisterTwice(other: string) returns (r1: Outcome<Error>, r2: Outcome<Error>)
    ensures r1 == Pass
    ensures r2 == Fail(InvalidState(AlreadyRegistered))
  {
    var process := new Registration();
    r1 := process.Register(DefaultExtensionMethod);
    r2 := process.Register(other);
  }
}
