/** The greeting banner (components/GolfGreeting.tsx): the name to greet,
    and the effect that keeps one greeting per browser session in two
    session-storage keys. The random choices of greeting and saying are
    inputs (indices into the two lists). */
module GolfGreeting {
  import opened Common
  import opened Text

  const Greetings: seq<string> := [
    "Hey",
    "Hello",
    "What's good",
    "Hi there",
    "Yo",
    "Well well well",
    "Look who it is",
    "There they are",
    "Welcome back",
    "What's up"
  ]

  const GolfSayings: seq<string> := [
    "how are you hitting them today?",
    "is it done being too cold to play?",
    "when was your last birdie dude?",
    "did you finally fix that slice or are we still blaming the wind?",
    "ready to three-putt your way to glory?",
    "the course isn't going to play itself!",
    "I bet your short game is looking sharp... or at least sharper than last time.",
    "remember, it's not about the score... okay it's a little about the score.",
    "when's the next round? The fairways are calling your name.",
    "you been sneaking in range sessions or just watching YouTube tips?",
    "your handicap called, it wants a word with you.",
    "think you can keep it on the fairway today? Bold strategy.",
    "the 19th hole misses you almost as much as the 1st tee does.",
    "driver or 3-wood off the tee today? Choose wisely, grasshopper.",
    "how many balls are we sacrificing to the water this weekend?",
    "that swing looking buttery smooth yet or still a work in progress?",
    "par is just a number... a number you should try hitting sometime.",
    "hope your putter is feeling hot because the greens won't putt themselves!",
    "grip it and rip it, let's see some birdies out there!",
    "the greens are waiting and so is your best round ever. No pressure.",
    "you coming in hot or are we easing into it with a nice top on the first tee?",
    "bet you've been dreaming about that perfect drive all week.",
    "you know what they say, a bad day on the course beats a good day at work.",
    "tell me you're not still using that beat-up 7-iron from 2012.",
    "the sand traps have been asking about you. They miss your visits.",
    "new round, new you... same three-putt probably, but we believe in you.",
    "you ready to shoot your age? No? How about your weight? Still no? Let's just have fun.",
    "I heard the pin placements are generous today. Your time to shine.",
    "fairways and greens, baby. That's the mantra. Now go do the opposite apparently.",
    "the golf gods are smiling today. Or laughing. Hard to tell from here."
  ]

  const GreetingKey := "golf-greeting"
  const NameKey := "golf-greeting-name"

  /** `name`: the display name; else, for a signed-in user with an email,
      the part of the email before its first "@"; else a stock phrase. */
  function GreetingName(displayName: Option<string>, email: Option<string>, isAuthenticated: bool): (name: string)
    ensures Truthy(displayName) ==> name == displayName.value
    ensures !Truthy(displayName) && isAuthenticated && Truthy(email) ==>
      '@' !in name &&
      (name == email.value ||
       (|name| < |email.value| && email.value[..|name|] == name && email.value[|name|] == '@'))
    ensures !Truthy(displayName) && !(isAuthenticated && Truthy(email)) ==> name == "my fellow visitor"
  {
    if Truthy(displayName) then displayName.value
    else if isAuthenticated && Truthy(email) then
      var parts := Split(email.value, '@');
      assert |parts| == 1 || email.value == parts[0] + ['@'] + Join(parts[1..], '@');
      parts[0]
    else "my fellow visitor"
  }

  /** `${greeting}, ${name}, ${saying}`. */
  function Compose(greeting: string, name: string, saying: string): (text: string)
    ensures |text| == |greeting| + 2 + |name| + 2 + |saying|
    ensures text[..|greeting|] == greeting
    ensures text[|text| - |saying|..] == saying
    ensures text[|greeting|..|text| - |saying|] == ", " + name + ", "
  {
    greeting + ", " + name + ", " + saying
  }

  /** The stored greeting is reused: it is there, not empty, and it was made
      for the same name. */
  predicate Reusable(storage: map<string, string>, name: string)
  {
    GreetingKey in storage && storage[GreetingKey] != "" &&
    NameKey in storage && storage[NameKey] == name
  }

  /** What the effect shows and leaves in storage. Either the stored greeting
      is reused and storage is untouched, or a new greeting is composed and
      stored under both keys; afterwards the greeting shown is the stored one
      for this name, so running the effect again reuses it. */
  function Effect(storage: map<string, string>, name: string, g: nat, s: nat): (r: (string, map<string, string>))
    requires g < |Greetings| && s < |GolfSayings|
    ensures Reusable(storage, name) ==> r == (storage[GreetingKey], storage)
    ensures !Reusable(storage, name) ==>
      r.0 == Compose(Greetings[g], name, GolfSayings[s]) &&
      r.1 == storage[GreetingKey := r.0][NameKey := name]
    ensures Reusable(r.1, name) && r.1[GreetingKey] == r.0
    ensures forall k :: k in storage && k != GreetingKey && k != NameKey ==> k in r.1 && r.1[k] == storage[k]
  {
    if Reusable(storage, name) then (storage[GreetingKey], storage)
    else
      var composed := Compose(Greetings[g], name, GolfSayings[s]);
      (composed, storage[GreetingKey := composed][NameKey := name])
  }

  /** A second run of the effect for the same name changes nothing. */
  lemma EffectIdempotent(storage: map<string, string>, name: string, g: nat, s: nat, g2: nat, s2: nat)
    requires g < |Greetings| && s < |GolfSayings| && g2 < |Greetings| && s2 < |GolfSayings|
    ensures Effect(Effect(storage, name, g, s).1, name, g2, s2) == Effect(storage, name, g, s)
  {
  }

  /** What is rendered: a fixed-height placeholder until a greeting is set. */
  datatype Banner = Placeholder | Line(text: string)

  function Render(greeting: Option<string>): (b: Banner)
    ensures b == Placeholder <==> !Truthy(greeting)
    ensures b.Line? ==> b.text == greeting.value
  {
    if Truthy(greeting) then Line(greeting.value) else Placeholder
  }

  /** The component's state: session storage and the `greeting` state. */
  class GreetingWidget {
    var storage: map<string, string>
    var greeting: Option<string>

    /** Mounted in a session whose storage holds `storage`. */
    constructor(storage: map<string, string>)
      ensures this.storage == storage && greeting == None
    {
      this.storage := storage;
      greeting := None;
    }

    /** The effect run for `name`, with `g` and `s` the random picks. */
    method RunEffect(name: string, g: nat, s: nat)
      requires g < |Greetings| && s < |GolfSayings|
      modifies this
      ensures (greeting, storage) == (Some(Effect(old(storage), name, g, s).0), Effect(old(storage), name, g, s).1)
      ensures Render(greeting).Line?
    {
      var storedName := if NameKey in storage then Some(storage[NameKey]) else None;
      var storedGreeting := if GreetingKey in storage then Some(storage[GreetingKey]) else None;
      if Truthy(storedGreeting) && storedName == Some(name) {
        greeting := storedGreeting;
        return;
      }
      var composed := Greetings[g] + ", " + name + ", " + GolfSayings[s];
      storage := storage[GreetingKey := composed];
      storage := storage[NameKey := name];
      greeting := Some(composed);
    }
  }
}
