/** The asset manager: two independent caches of loaded textures, one for 2D
    textures and one for cube maps, each keyed by the path it was loaded from. */
module Assets {
  /** A 2D texture; constructing one stands for Texture2D::Create loading the
      file at `path`. */
  class Texture2D {
    const path: string

    constructor (path: string)
      ensures this.path == path
    {
      this.path := path;
    }
  }

  /** A cube-map texture; constructing one stands for TextureCubemap::Create
      loading the file at `path`. */
  class TextureCubemap {
    const path: string

    constructor (path: string)
      ensures this.path == path
    {
      this.path := path;
    }
  }

  class AssetManager {
    /** m_Texture2DMap: path to loaded 2D texture. */
    var textures2D: map<string, Texture2D>
    /** m_TextureCubeMap: path to loaded cube map. */
    var cubemaps: map<string, TextureCubemap>

    /** Every cached texture was loaded from the path it is cached under. */
    ghost predicate Valid()
      reads this`textures2D, this`cubemaps
    {
      && (forall p | p in textures2D :: textures2D[p].path == p)
      && (forall p | p in cubemaps :: cubemaps[p].path == p)
    }

    /** The static maps start empty, and Init adds nothing. */
    constructor ()
      ensures Valid() && textures2D == map[] && cubemaps == map[]
    {
      textures2D := map[];
      cubemaps := map[];
    }

    /** Shutdown: both caches are emptied. */
    method Shutdown()
      modifies this`textures2D, this`cubemaps
      ensures Valid() && textures2D == map[] && cubemaps == map[]
    {
      textures2D := map[];
      cubemaps := map[];
    }

    /** GetTexture2D: a cached path yields the stored texture and loads nothing;
        otherwise one new texture is loaded from `path`, stored under `path` and
        returned. No other entry and no cube map changes. */
    method GetTexture2D(path: string) returns (texture: Texture2D)
      requires Valid()
      modifies this`textures2D
      ensures Valid() && texture.path == path
      ensures path in old(textures2D) ==> texture == old(textures2D)[path] && textures2D == old(textures2D)
      ensures path !in old(textures2D) ==> fresh(texture) && textures2D == old(textures2D)[path := texture]
      ensures textures2D[path] == texture
    {
      if path in textures2D {
        return textures2D[path];
      }
      texture := new Texture2D(path);
      textures2D := textures2D[path := texture];
    }

    /** GetTextureCubemap: the same get-or-create behaviour on the cube-map cache,
        which leaves the 2D cache alone. */
    method GetTextureCubemap(path: string) returns (texture: TextureCubemap)
      requires Valid()
      modifies this`cubemaps
      ensures Valid() && texture.path == path
      ensures path in old(cubemaps) ==> texture == old(cubemaps)[path] && cubemaps == old(cubemaps)
      ensures path !in old(cubemaps) ==> fresh(texture) && cubemaps == old(cubemaps)[path := texture]
      ensures cubemaps[path] == texture
    {
      if path in cubemaps {
        return cubemaps[path];
      }
      texture := new TextureCubemap(path);
      cubemaps := cubemaps[path := texture];
    }

    /** Asking twice for the same path yields the identical texture, and the
        second request changes nothing. */
    method GetTexture2DTwice(path: string) returns (first: Texture2D, second: Texture2D)
      requires Valid()
      modifies this`textures2D
      ensures Valid() && first == second && second.path == path
      ensures path in old(textures2D) ==> textures2D == old(textures2D)
      ensures path !in old(textures2D) ==> textures2D == old(textures2D)[path := first]
    {
      first := GetTexture2D(path);
      ghost var between := textures2D;
      second := GetTexture2D(path);
      assert textures2D == between;
    }

    /** The cube-map cache answers repeated requests with the identical texture. */
    method GetTextureCubemapTwice(path: string) returns (first: TextureCubemap, second: TextureCubemap)
      requires Valid()
      modifies this`cubemaps
      ensures Valid() && first == second && second.path == path
      ensures path in old(cubemaps) ==> cubemaps == old(cubemaps)
      ensures path !in old(cubemaps) ==> cubemaps == old(cubemaps)[path := first]
    {
      first := GetTextureCubemap(path);
      ghost var between := cubemaps;
      second := GetTextureCubemap(path);
      assert cubemaps == between;
    }
  }
}
