/** The five teams, each carrying a fixed record of wing texture, interface
    colour and wing tint. */
module Teams {

  datatype Team = Yellow | Red | Green | Blue | Pink

  /** A colour with red, green, blue and alpha channels, kept as exact reals. */
  datatype Rgba = Rgba(r: real, g: real, b: real, a: real)

  /** An opaque colour, as a three-argument colour constructor makes it. */
  function Opaque(r: real, g: real, b: real): (c: Rgba)
  {
    Rgba(r, g, b, 1.0)
  }

  /** Opaque white. */
  const White := Rgba(1.0, 1.0, 1.0, 1.0)

  /** The tint of pink wings. */
  const PinkWings := Opaque(2.0, 1.0, 12.0)

  /** The data attached to one team: the id of its wings texture, its
      interface colour and whether its wings are pink (false unless given). */
  datatype TeamData = TeamData(textureId: int, r: real, g: real, b: real, pink: bool := false)
  {
    /** The team colour, with the channels in the order they were given. */
    function Color(): (c: Rgba)
    {
      Opaque(r, g, b)
    }

    /** The colour of the wings. */
    function WingColor(): (c: Rgba)
    {
      if pink then PinkWings else White
    }
  }

  /** The data of a team; every team has some. */
  function Data(team: Team): (d: TeamData)
    ensures 0 <= d.textureId <= 3
    ensures d.pink <==> team == Pink
    ensures d.WingColor() == (if team == Pink then PinkWings else White)
  {
    match team
    case Yellow => TeamData(0, 1.0, 0.8, 0.3)
    case Red => TeamData(2, 1.0, 0.2, 0.1)
    case Green => TeamData(3, 0.0, 0.9, 0.4)
    case Blue => TeamData(1, 0.0, 0.5, 1.0)
    case Pink => TeamData(1, 1.0, 0.3, 0.7, true)
  }

  /** The colour of every team, channel by channel. */
  lemma TeamColors()
    ensures Data(Yellow).Color() == Opaque(1.0, 0.8, 0.3)
    ensures Data(Red).Color() == Opaque(1.0, 0.2, 0.1)
    ensures Data(Green).Color() == Opaque(0.0, 0.9, 0.4)
    ensures Data(Blue).Color() == Opaque(0.0, 0.5, 1.0)
    ensures Data(Pink).Color() == Opaque(1.0, 0.3, 0.7)
  {
  }

  /** The wing textures: Blue and Pink share texture 1, the others have one each. */
  lemma TextureIds()
    ensures Data(Yellow).textureId == 0 && Data(Red).textureId == 2
    ensures Data(Green).textureId == 3 && Data(Blue).textureId == 1
    ensures Data(Pink).textureId == 1
    ensures forall t, u :: Data(t).textureId == Data(u).textureId && t != u ==> {t, u} == {Blue, Pink}
  {
  }

  /** No two teams share a colour, so the colour tells the team. */
  lemma ColorsDistinct(t: Team, u: Team)
    ensures Data(t).Color() == Data(u).Color() ==> t == u
  {
  }

  /** Colours are opaque and every channel lies in [0, 1]. */
  lemma ColorsInRange(t: Team)
    ensures var c := Data(t).Color();
            && c.a == 1.0
            && 0.0 <= c.r <= 1.0 && 0.0 <= c.g <= 1.0 && 0.0 <= c.b <= 1.0
  {
  }
}
